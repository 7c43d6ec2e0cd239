/**
 * Port execution: `RedRatDevicePort.sendCommand(CatsCommand)` and
 * `GCDevicePort.sendCommand(CatsCommand)` share one loop. It drains the
 * command tree with `hasNext()`/`next()`, sleeps on delays, translates each
 * IR leaf for its hardware family and dispatches it, either over telnet to
 * the RedRat hub (expected answer "OK") or by HTTP to the Global Caché
 * dispatcher (expected body token "success").
 *
 * Each method is proved against a function of the oracle state; the lemmas
 * state what those functions promise.
 */
module Ports {
  import opened Wrappers
  import opened JavaText
  import opened Commands
  import opened Translators
  import opened Oracle

  /** The concrete port classes, with the device data their translators use. */
  datatype Family =
    | IrNetBoxPro(ip: string, number: int)
    | RedRat3(deviceName: string)
    | ITach(ip: string, number: int, apiBase: string)
    | GC100(deviceModule: string, apiBase: string)
  {
    /** A `RedRatDevicePort`, sending over the hub rather than by HTTP. */
    predicate OnHub() { IrNetBoxPro? || RedRat3? }
  }

  const PRESSKEY_EXPECTED_RESULT: string := "OK"
  const GC_PRESSKEY_EXPECTED_RESULT: string := "success"
  const FAILED_SIGNAL: string := "Failed to find signal "
  const WAIT_INTERVAL: int := 500
  const TELNET_ATTEMPTS: int := 3

  /** `getDeviceUnderstandablePressKeyCommand` of the port's class. */
  function Translate(f: Family, v: View): (r: Option<string>)
    ensures r.Some? <==> v.IsIr()
  {
    match f
    case IrNetBoxPro(ip, n) => IrNetBoxCommand(ip, n, v)
    case RedRat3(name) => RedRat3Command(name, v)
    case ITach(ip, n, _) => ITachCommand(ip, n, v)
    case GC100(m, _) => GC100Command(m, v)
  }

  /** The dispatch URL of a Global Caché port: `apiBase + "/press_key"`, then `"?"` and the command. */
  function PressKeyUrl(apiBase: string, command: string): (r: string)
    ensures EndsWith(r, "?" + command) && StartsWith(r, apiBase + "/press_key")
  {
    assert (apiBase + "/press_key" + "?" + command)[..|apiBase + "/press_key"|] == apiBase + "/press_key";
    assert (apiBase + "/press_key" + "?" + command)[|apiBase + "/press_key"|..] == "?" + command;
    apiBase + "/press_key" + "?" + command
  }

  // ---------------------------------------------------------- the RedRat hub

  /** Copies of one failed attempt: the command is sent, then the loop waits. */
  function Tries(command: string, k: nat): seq<Event>
  {
    if k == 0 then [] else [Sent(command), Slept(WAIT_INTERVAL)] + Tries(command, k - 1)
  }

  /**
   * The do-while loop of `sendTelnetCommand`, continued after `retries`
   * IOExceptions; a failed attempt reconnects only while fewer than three
   * have failed, and always waits 500 ms. When all three fail the answer is
   * the initial "".
   */
  function TelnetLoop(command: string, e: Env, retries: nat): (Option<string>, Env)
    requires retries < TELNET_ATTEMPTS
    decreases TELNET_ATTEMPTS - retries
  {
    var (reply, e1) := Transmit(e, command);
    match reply
    case Text(s) => (Some(s), e1)
    case Absent => (None, e1)
    case Broken(_) =>
      var n := retries + 1;
      var e2 := if n < TELNET_ATTEMPTS then Connect(e1).1 else e1;
      var e3 := Pause(e2, WAIT_INTERVAL);
      if n < TELNET_ATTEMPTS then TelnetLoop(command, e3, n) else (Some(""), e3)
  }

  /** How many of the next transmissions, at most three, will throw. */
  function LeadingBroken(e: Env, i: nat): (k: nat)
    requires i <= TELNET_ATTEMPTS
    decreases TELNET_ATTEMPTS - i
  {
    if i == TELNET_ATTEMPTS || !ReplyAt(e, i).Broken? then 0 else 1 + LeadingBroken(e, i + 1)
  }

  /**
   * The telnet loop tries at most three times: when the next `k` transmissions
   * all throw and `retries + k` reaches three, it sends the command once per
   * remaining attempt and returns the initial "".
   */
  lemma {:induction false} TelnetGivesUp(command: string, e: Env, retries: nat)
    requires retries < TELNET_ATTEMPTS && retries + LeadingBroken(e, 0) >= TELNET_ATTEMPTS
    ensures var (resp, e') := TelnetLoop(command, e, retries);
      resp == Some("") && e'.trace == e.trace + Tries(command, TELNET_ATTEMPTS - retries)
    decreases TELNET_ATTEMPTS - retries
  {
    var (reply, e1) := Transmit(e, command);
    if retries + 1 < TELNET_ATTEMPTS {
      var e3 := Pause(Connect(e1).1, WAIT_INTERVAL);
      ShiftBroken(e, e3);
      TelnetGivesUp(command, e3, retries + 1);
      TriesCons(command, TELNET_ATTEMPTS - retries - 1);
    }
  }

  /**
   * With `k` leading failures and room for another attempt, the loop sends
   * the command `k + 1` times and returns the `(k+1)`-th answer.
   */
  lemma {:induction false} TelnetAnswers(command: string, e: Env, retries: nat)
    requires retries + LeadingBroken(e, 0) < TELNET_ATTEMPTS
    ensures var k := LeadingBroken(e, 0);
      var (resp, e') := TelnetLoop(command, e, retries);
      e'.trace == e.trace + Tries(command, k) + [Sent(command)] &&
      resp == (match ReplyAt(e, k) case Text(s) => Some(s) case _ => None)
    decreases TELNET_ATTEMPTS - retries
  {
    var (reply, e1) := Transmit(e, command);
    if reply.Broken? {
      var e3 := Pause(Connect(e1).1, WAIT_INTERVAL);
      ShiftBroken(e, e3);
      TelnetAnswers(command, e3, retries + 1);
      assert e3.trace == e.trace + [Sent(command), Slept(WAIT_INTERVAL)];
      TriesCons(command, LeadingBroken(e3, 0));
    }
  }

  /** The telnet loop neither takes nor returns a communicator. */
  lemma {:induction false} TelnetKeepsPool(command: string, e: Env, retries: nat)
    requires retries < TELNET_ATTEMPTS
    ensures TelnetLoop(command, e, retries).1.borrowed == e.borrowed
    decreases TELNET_ATTEMPTS - retries
  {
    var (reply, e1) := Transmit(e, command);
    if reply.Broken? && retries + 1 < TELNET_ATTEMPTS {
      TelnetKeepsPool(command, Pause(Connect(e1).1, WAIT_INTERVAL), retries + 1);
    }
  }

  lemma TriesCons(command: string, k: nat)
    ensures Tries(command, k + 1) == [Sent(command), Slept(WAIT_INTERVAL)] + Tries(command, k)
  {
  }

  /** After one failed transmission the count of leading failures drops by one. */
  lemma ShiftBroken(e: Env, e3: Env)
    requires ReplyAt(e, 0).Broken? && e3.replies == Tail(e.replies)
    ensures LeadingBroken(e, 0) == 1 + LeadingBroken(e3, 0) || (LeadingBroken(e, 0) == 3 && LeadingBroken(e3, 0) >= 2)
    ensures forall i :: 0 <= i < 3 ==> ReplyAt(e3, i) == ReplyAt(e, i + 1)
  {
    assert forall i :: 0 <= i < 3 ==> ReplyAt(e3, i) == ReplyAt(e, i + 1);
  }

  /** `sendTelnetCommand`: the retry loop, then the communicator goes back to the pool. */
  method SendTelnetCommand(command: string, e0: Env) returns (resp: Option<string>, e: Env)
    ensures (resp, e) == (TelnetLoop(command, e0, 0).0, Release(TelnetLoop(command, e0, 0).1, true))
  {
    e := e0;
    resp := Some("");
    var retries := 0;
    var tryRetry := true;
    while tryRetry && retries < TELNET_ATTEMPTS
      invariant 0 <= retries <= TELNET_ATTEMPTS
      invariant tryRetry ==> resp == Some("")
      invariant tryRetry && retries < TELNET_ATTEMPTS ==> TelnetLoop(command, e0, 0) == TelnetLoop(command, e, retries)
      invariant tryRetry && retries == TELNET_ATTEMPTS ==> TelnetLoop(command, e0, 0) == (Some(""), e)
      invariant !tryRetry ==> TelnetLoop(command, e0, 0) == (resp, e)
      decreases TELNET_ATTEMPTS - retries, tryRetry
    {
      var sent := Transmit(e, command);
      e := sent.1;
      match sent.0
      case Text(s) =>
        resp := Some(s);
        tryRetry := false;
      case Absent =>
        resp := None;
        tryRetry := false;
      case Broken(_) =>
        tryRetry := true;
        retries := retries + 1;
        if retries < TELNET_ATTEMPTS {
          e := Connect(e).1;
        }
        e := Pause(e, WAIT_INTERVAL);
    }
    e := Release(e, true);
  }

  /** The private `sendCommand(commandString, expectedResult)` of `RedRatDevicePort`, on the hub's answer. */
  function HubVerdict(resp: Option<string>): (r: Result<bool>)
    ensures r.Ok? <==> resp == Some(PRESSKEY_EXPECTED_RESULT)
    ensures r.Ok? ==> r.value
    ensures r == Err(IllegalArgument) <==>
      resp.Some? && resp.value != PRESSKEY_EXPECTED_RESULT && Contains(resp.value, FAILED_SIGNAL)
  {
    match resp
    case None => Err(NullPointer)
    case Some(s) =>
      if s == PRESSKEY_EXPECTED_RESULT then Ok(true)
      else if Contains(s, FAILED_SIGNAL) then Err(IllegalArgument)
      else Err(IRFailure)
  }

  /**
   * One hub dispatch: `getCommunicator` (a null communicator or a failing
   * `connect` is released and becomes IRCommunicatorNotInitializedException),
   * then the telnet loop, then the check of the answer.
   */
  function HubDispatch(command: string, e: Env): (Result<bool>, Env)
  {
    var (got, e1) := Acquire(e);
    if !got then (Err(NotInitialized), Release(e1, false))
    else
      var (up, e2) := Connect(e1);
      if !up then (Err(NotInitialized), Release(e2, true))
      else
        var (resp, e3) := TelnetLoop(command, e2, 0);
        (HubVerdict(resp), Release(e3, true))
  }

  /** Every communicator a hub dispatch takes is given back, on every path. */
  lemma HubDispatchReleases(command: string, e: Env)
    ensures HubDispatch(command, e).1.borrowed == e.borrowed
  {
    var (got, e1) := Acquire(e);
    if got {
      var (up, e2) := Connect(e1);
      if up {
        TelnetKeepsPool(command, e2, 0);
      }
    }
  }

  method HubSend(command: string, e0: Env) returns (r: Result<bool>, e: Env)
    ensures (r, e) == HubDispatch(command, e0)
  {
    var got := Acquire(e0).0;
    e := Acquire(e0).1;
    if !got {
      e := Release(e, false);
      return Err(NotInitialized), e;
    }
    var up := Connect(e).0;
    e := Connect(e).1;
    if !up {
      e := Release(e, true);
      return Err(NotInitialized), e;
    }
    var resp;
    resp, e := SendTelnetCommand(command, e);
    r := HubVerdict(resp);
  }

  // ---------------------------------------------------- Global Caché dispatch

  /** The body as `readResponse` builds it: the lines appended with no separator. */
  function Concat(lines: seq<string>): string
  {
    if lines == [] then "" else Concat(lines[..|lines| - 1]) + lines[|lines| - 1]
  }

  lemma {:induction false} ConcatAppend(a: seq<string>, b: seq<string>)
    ensures Concat(a + b) == Concat(a) + Concat(b)
    decreases |b|
  {
    if b != [] {
      assert (a + b)[..|a + b| - 1] == a + b[..|b| - 1];
      ConcatAppend(a, b[..|b| - 1]);
    } else {
      assert a + b == a;
    }
  }

  /** No line break survives: the lines' characters in order, nothing else. */
  lemma {:induction false} ConcatIsJoin(lines: seq<string>)
    ensures Concat(lines) == Join(lines, "")
    decreases |lines|
  {
    if |lines| > 1 {
      ConcatAppend([lines[0]], lines[1..]);
      assert [lines[0]] + lines[1..] == lines;
      ConcatIsJoin(lines[1..]);
      assert Concat([lines[0]]) == lines[0] by {
        assert [lines[0]][..0] == [];
      }
    } else if |lines| == 1 {
      assert lines[..0] == [];
    }
  }

  /** The `readLine` loop of `readResponse`. */
  method ReadBody(lines: seq<string>) returns (content: string)
    ensures content == Concat(lines)
  {
    content := "";
    var i := 0;
    while i < |lines|
      invariant 0 <= i <= |lines|
      invariant content == Concat(lines[..i])
    {
      assert lines[..i + 1][..i] == lines[..i];
      content := content + lines[i];
      i := i + 1;
    }
    assert lines[..|lines|] == lines;
  }

  /**
   * `GCDispatcherUtil.sendCommand` on the response: an IOException is false,
   * a body containing the expected token is true, otherwise a body mentioning
   * "Error" is an IllegalArgumentException and any other an IRFailureException.
   */
  function GcVerdict(body: Option<seq<string>>, expected: string): (r: Result<bool>)
    ensures r == Ok(false) <==> body.None?
    ensures r == Ok(true) <==> body.Some? && Contains(Concat(body.value), expected)
    ensures r == Err(IllegalArgument) <==>
      body.Some? && !Contains(Concat(body.value), expected) && Contains(Concat(body.value), "Error")
  {
    match body
    case None => Ok(false)
    case Some(lines) =>
      var response := Concat(lines);
      if Contains(response, expected) then Ok(true)
      else if Contains(response, "Error") then Err(IllegalArgument)
      else Err(IRFailure)
  }

  method GcSend(apiBase: string, command: string, e0: Env) returns (r: Result<bool>, e: Env)
    ensures var (body, e1) := Post(e0, PressKeyUrl(apiBase, command));
      r == GcVerdict(body, GC_PRESSKEY_EXPECTED_RESULT) && e == e1
  {
    var body := Post(e0, PressKeyUrl(apiBase, command)).0;
    e := Post(e0, PressKeyUrl(apiBase, command)).1;
    if body.None? {
      return Ok(false), e;
    }
    var response := ReadBody(body.value);
    if Contains(response, GC_PRESSKEY_EXPECTED_RESULT) {
      r := Ok(true);
    } else if Contains(response, "Error") {
      r := Err(IllegalArgument);
    } else {
      r := Err(IRFailure);
    }
  }

  // ------------------------------------------------------------ the drain

  /** Sending one translated command through the port's channel. */
  function Dispatch(f: Family, command: string, e: Env): (Result<bool>, Env)
  {
    match f
    case ITach(_, _, base) =>
      var (body, e1) := Post(e, PressKeyUrl(base, command));
      (GcVerdict(body, GC_PRESSKEY_EXPECTED_RESULT), e1)
    case GC100(_, base) =>
      var (body, e1) := Post(e, PressKeyUrl(base, command));
      (GcVerdict(body, GC_PRESSKEY_EXPECTED_RESULT), e1)
    case _ => HubDispatch(command, e)
  }

  /** What the loop does with one node: nothing, a sleep, or sending a translated command. */
  datatype Action = Skip | Wait(ms: int) | Fire(leaf: View)

  /**
   * The action for one node `next()` returned (None for null): a
   * DelayCommand sleeps, an IrCommand is translated, anything else, the
   * group nodes included, is skipped.
   */
  function Act(f: Family, x: Option<View>): (a: Action)
    ensures a.Wait? <==> x.Some? && x.value.DelayView?
    ensures a.Wait? ==> a.ms == x.value.delay
    ensures a.Fire? <==> x.Some? && x.value.IsIr()
    ensures a.Fire? ==> a.leaf == x.value
  {
    match x
    case None => Skip
    case Some(v) =>
      if v.DelayView? then Wait(v.delay)
      else if v.IsIr() then Fire(v)
      else Skip
  }

  function Acts(f: Family, xs: seq<Option<View>>): (r: seq<Action>)
    ensures |r| == |xs|
    ensures forall i :: 0 <= i < |xs| ==> r[i] == Act(f, xs[i])
    decreases |xs|
  {
    if xs == [] then [] else [Act(f, xs[0])] + Acts(f, xs[1..])
  }

  /** One action, given the result of the last dispatch. */
  function Perform(f: Family, a: Action, e: Env, ret: bool): (Result<bool>, Env)
  {
    match a
    case Skip => (Ok(ret), e)
    case Wait(ms) => (Ok(ret), Pause(e, ms))
    case Fire(v) => Send(f, v, e)
  }

  /** Translating an IR leaf and dispatching it; a null translation is an IRFailureException. */
  function Send(f: Family, v: View, e: Env): (Result<bool>, Env)
  {
    match Translate(f, v)
    case None => (Err(IRFailure), e)
    case Some(command) => Dispatch(f, command, e)
  }

  datatype Outcome = Outcome(res: Result<bool>, env: Env, used: nat)

  /**
   * The loop over the actions, stopping at the first exception; `used`
   * counts the `next()` calls made. The value returned is that of the last
   * dispatch (initially true).
   */
  function Run(f: Family, acts: seq<Action>, e: Env, ret: bool, used: nat): (o: Outcome)
    ensures used <= o.used <= used + |acts|
    ensures o.res.Ok? ==> o.used == used + |acts|
    decreases |acts|, 2
  {
    if acts == [] then Outcome(Ok(ret), e, used) else Go(f, acts, e, ret, used)
  }

  /** The first action, then the rest unless it threw. */
  function Go(f: Family, acts: seq<Action>, e: Env, ret: bool, used: nat): (o: Outcome)
    requires acts != []
    ensures used < o.used <= used + |acts|
    ensures o.res.Ok? ==> o.used == used + |acts|
    decreases |acts|, 1
  {
    match acts[0]
    case Skip => Run(f, acts[1..], e, ret, used + 1)
    case Wait(ms) => Run(f, acts[1..], Pause(e, ms), ret, used + 1)
    case Fire(v) => Shoot(f, v, acts, e, used)
  }

  /** An IR leaf first: it is sent, then the rest follows unless that threw. */
  function Shoot(f: Family, v: View, acts: seq<Action>, e: Env, used: nat): (o: Outcome)
    requires acts != []
    ensures used < o.used <= used + |acts|
    ensures o.res.Ok? ==> o.used == used + |acts|
    decreases |acts|, 0
  {
    var (r, e1) := Send(f, v, e);
    match r
    case Err(x) => Outcome(Err(x), e1, used + 1)
    case Ok(b) => Run(f, acts[1..], e1, b, used + 1)
  }

  /** The views of the nodes, as they were when the loop started. */
  function Views(vm: map<CatsCommand, View>, xs: seq<CatsCommand?>): (r: seq<Option<View>>)
    ensures |r| == |xs|
    ensures forall i :: 0 <= i < |xs| ==> r[i] == (if xs[i] != null && xs[i] in vm then Some(vm[xs[i]]) else None)
    decreases |xs|
  {
    if xs == [] then []
    else [if xs[0] != null && xs[0] in vm then Some(vm[xs[0]]) else None] + Views(vm, xs[1..])
  }

  function ViewMap(s: set<CatsCommand>): map<CatsCommand, View>
    reads s
  {
    map o | o in s :: o.View()
  }

  /** The number of `true` answers `hasNext()` gives before its next false. */
  function Passes(counter: int, size: int): nat
  {
    if counter < size then size - counter else 0
  }

  /** The option view of one node, as recorded in `vm` (None for null). */
  function Seen(vm: map<CatsCommand, View>, x: CatsCommand?): Option<View>
  {
    if x != null && x in vm then Some(vm[x]) else None
  }

  /** The actions of the nodes `k` calls of `next()` return from `t`. */
  ghost function Plan(f: Family, vm: map<CatsCommand, View>, t: Tree, k: nat): (r: seq<Action>)
    ensures |r| == k
    decreases k
  {
    if k == 0 then [] else [Act(f, Seen(vm, Step(t).out))] + Plan(f, vm, Step(t).tree, k - 1)
  }

  /** `Plan` is the actions of what `Drain` returns. */
  lemma {:induction false} PlanIsDrain(f: Family, vm: map<CatsCommand, View>, t: Tree, k: nat)
    ensures Plan(f, vm, t, k) == Acts(f, Views(vm, Drain(t, k)))
    decreases k
  {
    if k > 0 {
      PlanIsDrain(f, vm, Step(t).tree, k - 1);
      DrainHead(vm, f, t, k, Step(t).out);
    }
  }

  /** The loop body for one node `next()` returned. */
  method Visit(f: Family, x: CatsCommand?, e0: Env, ret: bool) returns (r: Result<bool>, e: Env)
    ensures (r, e) == Perform(f, Act(f, if x != null then Some(x.View()) else None), e0, ret)
  {
    e := e0;
    r := Ok(ret);
    if x != null && x.kind == Delay {
      e := Pause(e, x.delay);
    } else if x != null && (x.kind == PressKey || x.kind == PressKeyAndHold) {
      r, e := SendLeaf(f, x.View(), e0);
    }
  }

  /** An IR leaf: its translation sent to the hub or posted to the Global Caché dispatcher. */
  method SendLeaf(f: Family, v: View, e0: Env) returns (r: Result<bool>, e: Env)
    requires v.IsIr()
    ensures (r, e) == Send(f, v, e0)
  {
    var command := Translate(f, v).value;
    if f.OnHub() {
      r, e := HubSend(command, e0);
    } else {
      r, e := GcSend(f.apiBase, command, e0);
    }
  }

  /** Every command of `s` still has the view recorded in `vm`. */
  ghost predicate Keeps(s: set<CatsCommand>, vm: map<CatsCommand, View>)
    reads s
  {
    forall o :: o in s ==> o in vm && o.View() == vm[o]
  }

  /** `next()`, seen by the port: the node returned keeps the view it had when the loop started. */
  method NextNode(c: CatsCommand, ghost vm: map<CatsCommand, View>) returns (x: CatsCommand?)
    requires c.Valid() && Keeps(c.Repr, vm)
    modifies c.Repr
    ensures c.Valid() && c.Repr == old(c.Repr) && Keeps(c.Repr, vm)
    ensures c.activeSize == old(c.activeSize) && c.hasNextCounter == old(c.hasNextCounter)
    ensures c.Model == Step(old(c.Model)).tree && x == Step(old(c.Model)).out
    ensures x != null ==> x in vm && x.View() == vm[x]
  {
    x := c.Next();
  }

  /** `hasNext()`, seen by the port. */
  method AskNext(c: CatsCommand, ghost vm: map<CatsCommand, View>) returns (b: bool)
    requires c.Valid() && Keeps(c.Repr, vm)
    modifies c`hasNextCounter
    ensures c.Valid() && Keeps(c.Repr, vm)
    ensures (b, c.hasNextCounter) == CounterStep(old(c.hasNextCounter), c.activeSize)
  {
    b := c.HasNext();
  }

  /** One pass of the loop body: `next()`, then what the port does with the node. */
  method Turn(f: Family, c: CatsCommand, ghost vm: map<CatsCommand, View>, ghost k: nat, ghost used: nat,
              e0: Env, ret: bool) returns (r: Result<bool>, e: Env)
    requires c.Valid() && Keeps(c.Repr, vm) && k > 0
    modifies c.Repr
    ensures c.Valid() && c.Repr == old(c.Repr) && Keeps(c.Repr, vm)
    ensures c.activeSize == old(c.activeSize) && c.hasNextCounter == old(c.hasNextCounter)
    ensures c.Model == Step(old(c.Model)).tree
    ensures Run(f, Plan(f, vm, old(c.Model), k), e0, ret, used) ==
      if r.Err? then Outcome(r, e, used + 1) else Run(f, Plan(f, vm, c.Model, k - 1), e, r.value, used + 1)
  {
    ghost var u := c.Model;
    var x := NextNode(c, vm);
    r, e := Visit(f, x, e0, ret);
    RunStep(f, Plan(f, vm, u, k), Plan(f, vm, Step(u).tree, k - 1), e0, ret, used);
  }

  /**
   * `sendCommand(catsCommand)`: null is an IRFailureException; otherwise the
   * tree is drained as `Run` says, and an exception leaves its cursors where
   * the failing node was returned. On a tree fresh from its constructors and
   * `add` calls, the nodes are exactly the tree in pre-order.
   */
  method SendCommand(f: Family, c: CatsCommand?, e0: Env) returns (r: Result<bool>, e: Env)
    requires c != null ==> c.Valid()
    modifies if c != null then c.Repr else {}
    ensures c == null ==> r == Err(IRFailure) && e == e0
    ensures c != null ==> c.Valid() && c.Repr == old(c.Repr)
    ensures c != null ==>
      Driven(f, old(ViewMap(c.Repr)), old(c.Model), old(c.hasNextCounter), old(c.activeSize), e0,
             r, e, c.Model, c.hasNextCounter)
    ensures c != null && old(c.hasNextCounter) == 0 && old(c.Sized()) && old(Idle(c.Model)) ==>
      Drain(old(c.Model), Passes(old(c.hasNextCounter), old(c.activeSize))) == PreOrder(old(c.Model))
  {
    if c == null {
      return Err(IRFailure), e0;
    }
    c.ModelReal();
    if c.hasNextCounter == 0 && c.Sized() && Idle(c.Model) {
      HasNextPasses(c.Model);
    }
    r, e := Drive(f, c, e0);
  }

  /** One pass of the loop: `next()`, the node's action, then the `hasNext()` of the loop test. */
  method Cycle(f: Family, c: CatsCommand, ghost vm: map<CatsCommand, View>, ghost all: seq<Action>, ghost start: Env,
               ghost k: nat, ghost used: nat, ghost m0: Tree, e0: Env, ret: bool) returns (r: Result<bool>, e: Env, more: bool)
    requires c.Valid() && Keeps(c.Repr, vm) && k > 0 && c.hasNextCounter + k == c.activeSize + 1
    requires c.Model == DrainState(m0, used)
    requires Run(f, all, start, true, 0) == Run(f, Plan(f, vm, c.Model, k), e0, ret, used)
    modifies c.Repr
    ensures c.Valid() && c.Repr == old(c.Repr) && Keeps(c.Repr, vm) && c.activeSize == old(c.activeSize)
    ensures c.Model == DrainState(m0, used + 1)
    ensures r.Err? ==> Run(f, all, start, true, 0) == Outcome(r, e, used + 1) && c.hasNextCounter == old(c.hasNextCounter)
    ensures r.Ok? ==> Run(f, all, start, true, 0) == Run(f, Plan(f, vm, c.Model, k - 1), e, r.value, used + 1)
    ensures r.Ok? ==> (more <==> k > 1) && c.hasNextCounter == (if more then old(c.hasNextCounter) + 1 else 0)
  {
    more := false;
    r, e := Turn(f, c, vm, k, used, e0, ret);
    DrainLast(m0, used);
    if r.Ok? {
      more := AskNext(c, vm);
    }
  }

  /**
   * What the loop of `sendCommand` leaves, from a tree with model `m0`, hasNext
   * counter `h0` and size `size`: the outcome `Run` gives for the planned
   * actions, the tree drained by the `next()` calls made, and the counter
   * reset when the loop ran to its end.
   */
  ghost predicate Driven(f: Family, vm: map<CatsCommand, View>, m0: Tree, h0: int, size: int, e0: Env,
                         r: Result<bool>, e: Env, m: Tree, h: int)
  {
    var o := Run(f, Plan(f, vm, m0, Passes(h0, size)), e0, true, 0);
    r == o.res && e == o.env && m == DrainState(m0, o.used) &&
    h == (if r.Ok? then 0 else h0 + o.used)
  }

  /** The `while (command.hasNext())` loop of `sendCommand`, on a non-null tree. */
  method Drive(f: Family, c: CatsCommand, e0: Env) returns (r: Result<bool>, e: Env)
    requires c.Valid()
    modifies c.Repr
    ensures c.Valid() && c.Repr == old(c.Repr)
    ensures Driven(f, old(ViewMap(c.Repr)), old(c.Model), old(c.hasNextCounter), old(c.activeSize), e0,
                   r, e, c.Model, c.hasNextCounter)
  {
    ghost var m0 := c.Model;
    ghost var h0 := c.hasNextCounter;
    ghost var n := Passes(c.hasNextCounter, c.activeSize);
    ghost var vm := ViewMap(c.Repr);
    var more := AskNext(c, vm);
    r, e := Loop(f, c, vm, m0, h0, n, Plan(f, vm, m0, n), e0, more);
  }

  /** The loop itself, from the first `hasNext()` answer `more0` on. */
  method Loop(f: Family, c: CatsCommand, ghost vm: map<CatsCommand, View>, ghost m0: Tree, ghost h0: int, ghost n: nat,
              ghost all: seq<Action>, e0: Env, more0: bool) returns (r: Result<bool>, e: Env)
    requires c.Valid() && Keeps(c.Repr, vm) && c.Model == m0 && all == Plan(f, vm, m0, n)
    requires more0 ==> 0 < n && h0 + n == c.activeSize && c.hasNextCounter == h0 + 1
    requires !more0 ==> n == 0 && c.hasNextCounter == 0
    modifies c.Repr
    ensures c.Valid() && c.Repr == old(c.Repr)
    ensures var o := Run(f, all, e0, true, 0);
      r == o.res && e == o.env && c.Model == DrainState(m0, o.used) &&
      c.hasNextCounter == (if r.Ok? then 0 else h0 + o.used)
  {
    e := e0;
    var ret := true;
    ghost var j := 0;
    var more := more0;
    while more
      invariant c.Valid() && c.Repr == old(c.Repr) && c.activeSize == old(c.activeSize)
      invariant Keeps(c.Repr, vm)
      invariant 0 <= j <= n && c.Model == DrainState(m0, j)
      invariant more ==> j < n && c.hasNextCounter == h0 + j + 1
      invariant !more ==> j == n && c.hasNextCounter == 0
      invariant Run(f, all, e0, true, 0) == Run(f, Plan(f, vm, c.Model, n - j), e, ret, j)
      decreases n - j
    {
      var res;
      res, e, more := Cycle(f, c, vm, all, e0, n - j, j, m0, e, ret);
      if res.Err? {
        r := res;
        return;
      }
      ret := res.value;
      j := j + 1;
    }
    r := Ok(ret);
  }

  lemma RunStep(f: Family, acts: seq<Action>, rest: seq<Action>, e: Env, ret: bool, used: nat)
    requires acts != [] && acts[1..] == rest
    ensures var (r, e1) := Perform(f, acts[0], e, ret);
      Run(f, acts, e, ret, used) ==
        if r.Err? then Outcome(r, e1, used + 1) else Run(f, rest, e1, r.value, used + 1)
  {
    if acts[0].Fire? {
      assert Go(f, acts, e, ret, used) == Shoot(f, acts[0].leaf, acts, e, used);
    }
  }

  /** The first of the remaining actions is that of the node `next()` returns. */
  lemma DrainHead(vm: map<CatsCommand, View>, f: Family, u: Tree, k: nat, x: CatsCommand?)
    requires k > 0 && x == Step(u).out
    ensures Acts(f, Views(vm, Drain(u, k)))[0] == Act(f, Seen(vm, x))
    ensures Acts(f, Views(vm, Drain(u, k)))[1..] == Acts(f, Views(vm, Drain(Step(u).tree, k - 1)))
  {
    var d := Drain(u, k);
    assert d == [x] + Drain(Step(u).tree, k - 1);
    assert d[1..] == Drain(Step(u).tree, k - 1);
    var a := Acts(f, Views(vm, d));
    var b := Acts(f, Views(vm, d[1..]));
    assert |a[1..]| == |b|;
    forall i | 0 <= i < |b|
      ensures a[1..][i] == b[i]
    {
      assert a[i + 1] == Act(f, Views(vm, d)[i + 1]);
    }
  }

  // ------------------------------------------------------ what a run promises

  /** A RedRat port never answers false: it is true or an exception. */
  lemma {:induction false} HubRunNeverFalse(f: Family, acts: seq<Action>, e: Env, used: nat)
    requires f.OnHub()
    ensures Run(f, acts, e, true, used).res != Ok(false)
    decreases |acts|
  {
    if acts != [] {
      var (r, e1) := Perform(f, acts[0], e, true);
      RunStep(f, acts, acts[1..], e, true, used);
      if r.Ok? {
        assert r.value;
        HubRunNeverFalse(f, acts[1..], e1, used + 1);
      }
    }
  }

  /** However a run ends, the pool has as many communicators out as before it. */
  lemma {:induction false} RunReleases(f: Family, acts: seq<Action>, e: Env, ret: bool, used: nat)
    ensures Run(f, acts, e, ret, used).env.borrowed == e.borrowed
    decreases |acts|
  {
    if acts != [] {
      var (r, e1) := Perform(f, acts[0], e, ret);
      RunStep(f, acts, acts[1..], e, ret, used);
      PerformReleases(f, acts[0], e, ret);
      if r.Ok? {
        RunReleases(f, acts[1..], e1, r.value, used + 1);
      }
    }
  }

  /** One action leaves as many communicators out as before it. */
  lemma PerformReleases(f: Family, a: Action, e: Env, ret: bool)
    ensures Perform(f, a, e, ret).1.borrowed == e.borrowed
  {
    if a.Fire? && f.OnHub() && Translate(f, a.leaf).Some? {
      HubDispatchReleases(Translate(f, a.leaf).value, e);
    }
  }

  /** The record one action leaves when nothing throws. */
  function Trail(f: Family, a: Action): seq<Event>
  {
    match a
    case Skip => []
    case Wait(ms) => [Slept(ms)]
    case Fire(v) =>
      match Translate(f, v)
      case None => []
      case Some(command) => if f.OnHub() then [Sent(command)] else [Posted(PressKeyUrl(f.apiBase, command))]
  }

  function Events(f: Family, acts: seq<Action>): seq<Event>
    decreases |acts|
  {
    if acts == [] then [] else Trail(f, acts[0]) + Events(f, acts[1..])
  }

  /** No transmission in the script throws. */
  predicate Steady(e: Env)
  {
    forall i :: 0 <= i < |e.replies| ==> !e.replies[i].Broken?
  }

  lemma HubDispatchSteady(command: string, e: Env)
    requires Steady(e)
    ensures HubDispatch(command, e).0.Ok? ==> HubDispatch(command, e).1.trace == e.trace + [Sent(command)]
    ensures Steady(HubDispatch(command, e).1)
  {
    var (got, e1) := Acquire(e);
    if got {
      var (up, e2) := Connect(e1);
      if up {
        if ReplyAt(e2, 0).Broken? {
          assert |e2.replies| == 0;
          assert LeadingBroken(e2, 0) == 3;
          TelnetGivesUp(command, e2, 0);
        } else {
          TelnetAnswers(command, e2, 0);
        }
      }
    }
  }

  /** One action, without IOExceptions, leaves exactly its trail. */
  lemma PerformSteady(f: Family, a: Action, e: Env, ret: bool)
    requires Steady(e)
    ensures Perform(f, a, e, ret).0.Ok? ==> Perform(f, a, e, ret).1.trace == e.trace + Trail(f, a)
    ensures Steady(Perform(f, a, e, ret).1)
  {
    if a.Fire? && f.OnHub() && Translate(f, a.leaf).Some? {
      HubDispatchSteady(Translate(f, a.leaf).value, e);
    }
  }

  lemma TraceAppend(t: seq<Event>, head: seq<Event>, tail: seq<Event>)
    ensures (t + head) + tail == t + (head + tail)
  {
  }

  /**
   * A run that succeeds without IOExceptions sends exactly the translations
   * of the IR leaves, in order, with the sleeps of the delays between them.
   */
  lemma {:induction false} RunTrace(f: Family, acts: seq<Action>, e: Env, ret: bool, used: nat)
    requires Steady(e)
    ensures Run(f, acts, e, ret, used).res.Ok? ==> Run(f, acts, e, ret, used).env.trace == e.trace + Events(f, acts)
    decreases |acts|
  {
    if acts != [] {
      var (r, e1) := Perform(f, acts[0], e, ret);
      RunStep(f, acts, acts[1..], e, ret, used);
      PerformSteady(f, acts[0], e, ret);
      if r.Ok? {
        RunTrace(f, acts[1..], e1, r.value, used + 1);
        var head, tail := Trail(f, acts[0]), Events(f, acts[1..]);
        assert Events(f, acts) == head + tail;
        assert e1.trace == e.trace + head;
        TraceAppend(e.trace, head, tail);
      }
    }
  }
}
