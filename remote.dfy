/**
 * `LocalRemote`: the remote-control façade over one IR port. Key presses,
 * hold presses and key lists are built into command trees and handed to the
 * port's `sendCommand`; channel numbers become digit words, and the
 * remote's own delay is applied after a successful press.
 */
module Remote {
  import opened Wrappers
  import opened JavaText
  import opened Commands
  import opened Oracle
  import opened Ports

  const MAX_DELAY: int := 30000
  const DELAY_BETWEEN_KEYS: int := 100
  const REPEAT_IR_COMMAND_DELAY: int := 500
  const PRESS_KEYS_NAME: string := "PressKeys"
  const SELECT: string := "SELECT"

  /** The key names of the digits 0 to 9. */
  const DIGIT_WORDS: seq<string> := ["ZERO", "ONE", "TWO", "THREE", "FOUR", "FIVE", "SIX", "SEVEN", "EIGHT", "NINE"]

  // ------------------------------------------------------------ pure helpers

  /** `verifyDelay`: an IllegalArgumentException outside 0..MAX_DELAY. */
  function VerifyDelay(d: int): (r: Result<()>)
    ensures r.Ok? <==> 0 <= d <= MAX_DELAY
    ensures r.Err? ==> r.error == IllegalArgument
  {
    if d < 0 || d > MAX_DELAY then Err(IllegalArgument) else Ok(())
  }

  /** `parse(digit)`: the key name of an ASCII digit, null for any other character. */
  function Parse(c: char): (r: Option<string>)
    ensures r.Some? <==> IsAsciiDigit(c)
    ensures r.Some? ==> r.value == DIGIT_WORDS[DigitValue(c)]
  {
    match c
    case '0' => Some("ZERO")
    case '1' => Some("ONE")
    case '2' => Some("TWO")
    case '3' => Some("THREE")
    case '4' => Some("FOUR")
    case '5' => Some("FIVE")
    case '6' => Some("SIX")
    case '7' => Some("SEVEN")
    case '8' => Some("EIGHT")
    case '9' => Some("NINE")
    case _ => None
  }

  /** Different digits have different key names. */
  lemma ParseInjective(a: char, b: char)
    requires IsAsciiDigit(a) && IsAsciiDigit(b) && a != b
    ensures Parse(a) != Parse(b)
  {
  }

  /** `CHANNEL_VALIDATOR.matcher(channel).matches()`: the pattern `\d{1,4}`. */
  predicate ValidChannel(s: string)
  {
    1 <= |s| <= 4 && AllDigits(s)
  }

  /** The key names of a channel's digits, in order. */
  function ChannelWords(s: string): (r: seq<string>)
    requires forall i :: 0 <= i < |s| ==> IsAsciiDigit(s[i])
    ensures |r| == |s|
    ensures forall i :: 0 <= i < |s| ==> Some(r[i]) == Parse(s[i])
    decreases |s|
  {
    if s == [] then [] else ChannelWords(s[..|s| - 1]) + [DIGIT_WORDS[DigitValue(s[|s| - 1])]]
  }

  /**
   * `getRemoteCommandFromChannel`: null unless the channel has one to four
   * ASCII digits, otherwise the digit words in order.
   */
  method GetRemoteCommandFromChannel(channel: string) returns (r: Option<seq<string>>)
    ensures r.Some? <==> ValidChannel(channel)
    ensures r.Some? ==> r.value == ChannelWords(channel)
  {
    if !ValidChannel(channel) {
      return None;
    }
    var commands: seq<string> := [];
    var i := 0;
    while i < |channel|
      invariant 0 <= i <= |channel|
      invariant commands == ChannelWords(channel[..i])
    {
      assert channel[..i + 1][..i] == channel[..i];
      commands := commands + [Parse(channel[i]).value];
      i := i + 1;
    }
    assert channel[..i] == channel;
    r := Some(commands);
  }

  /** `text.toCharArray()`, each character made a one-character string. */
  method CharKeys(text: string) returns (keys: seq<string>)
    ensures |keys| == |text|
    ensures forall i :: 0 <= i < |text| ==> keys[i] == [text[i]]
  {
    keys := [];
    var i := 0;
    while i < |text|
      invariant 0 <= i <= |text|
      invariant |keys| == i
      invariant forall j :: 0 <= j < i ==> keys[j] == [text[j]]
    {
      keys := keys + [[text[i]]];
      i := i + 1;
    }
  }

  // ------------------------------------------------------- what is sent

  /** The exceptions the press methods catch: IRFailure and NotInitialized become false. */
  function Caught(r: Result<bool>): (q: Result<bool>)
    ensures q.Err? <==> r.Err? && r.error != IRFailure && r.error != NotInitialized
    ensures q.Err? || r.Ok? ==> q == r
  {
    if r.Err? && (r.error == IRFailure || r.error == NotInitialized) then Ok(false) else r
  }

  /** `sleepOnTrue(result)`: a true result sleeps for the remote's delay when that is positive. */
  function AfterPress(r: Result<bool>, delay: int, e: Env): Env
  {
    if r == Ok(true) && delay > 0 then Pause(e, delay) else e
  }

  /** The views of the children `pressKeys` adds: `PressKey(cmd)`, `Delay(d)` for each command. */
  function KeyViews(cmds: seq<string>, keySet: string, d: nat): (r: seq<Option<View>>)
    ensures |r| == 2 * |cmds|
    decreases |cmds|
  {
    if cmds == [] then []
    else KeyViews(cmds[..|cmds| - 1], keySet, d) + [Some(PressView(cmds[|cmds| - 1], keySet)), Some(DelayView(d))]
  }

  /** The tree of `pressKeys`: the group "PressKeys", then its children. */
  function KeysTree(cmds: seq<string>, keySet: string, d: nat): seq<Option<View>>
  {
    [Some(GroupView(PRESS_KEYS_NAME))] + KeyViews(cmds, keySet, d)
  }

  /** The children alternate a press of each command and a delay, in list order. */
  lemma {:induction false} KeyViewsAlternate(cmds: seq<string>, keySet: string, d: nat)
    ensures forall i :: 0 <= i < |cmds| ==>
      KeyViews(cmds, keySet, d)[2 * i] == Some(PressView(cmds[i], keySet)) &&
      KeyViews(cmds, keySet, d)[2 * i + 1] == Some(DelayView(d))
    decreases |cmds|
  {
    if cmds != [] {
      var init := cmds[..|cmds| - 1];
      KeyViewsAlternate(init, keySet, d);
      forall i | 0 <= i < |init|
        ensures cmds[i] == init[i]
      {
      }
    }
  }

  /**
   * What the port does with the `pressKeys` tree: a skip for the group, then
   * for each command in order a send of its press and a sleep of `d`.
   */
  lemma KeysActions(f: Family, cmds: seq<string>, keySet: string, d: nat)
    ensures |Acts(f, KeysTree(cmds, keySet, d))| == 1 + 2 * |cmds|
    ensures Acts(f, KeysTree(cmds, keySet, d))[0] == Skip
    ensures forall i :: 0 <= i < |cmds| ==>
      Acts(f, KeysTree(cmds, keySet, d))[1 + 2 * i] == Fire(PressView(cmds[i], keySet)) &&
      Acts(f, KeysTree(cmds, keySet, d))[2 + 2 * i] == Wait(d)
  {
    KeyViewsAlternate(cmds, keySet, d);
    var ks := KeyViews(cmds, keySet, d);
    var xs := KeysTree(cmds, keySet, d);
    var a := Acts(f, xs);
    forall i | 0 <= i < |cmds|
      ensures a[1 + 2 * i] == Fire(PressView(cmds[i], keySet)) && a[2 + 2 * i] == Wait(d)
    {
      assert xs[1 + 2 * i] == ks[2 * i] == Some(PressView(cmds[i], keySet));
      assert xs[2 + 2 * i] == ks[2 * i + 1] == Some(DelayView(d));
      assert a[1 + 2 * i] == Act(f, xs[1 + 2 * i]);
      assert a[2 + 2 * i] == Act(f, xs[2 + 2 * i]);
    }
  }

  /** Sending a one-node tree is one translation and dispatch. */
  lemma RunOne(f: Family, v: View, e: Env)
    requires v.IsIr()
    ensures Run(f, Acts(f, [Some(v)]), e, true, 0) == Outcome(Send(f, v, e).0, Send(f, v, e).1, 1)
  {
    var acts := Acts(f, [Some(v)]);
    assert acts == [Fire(v)];
    RunStep(f, acts, [], e, true, 0);
  }

  /** `pressKey`: nothing is sent without a port or a command; one press otherwise. */
  function Press(port: Option<Family>, command: Option<string>, keySet: string, e: Env): (Result<bool>, Env)
  {
    if port.None? || command.None? then (Ok(false), e)
    else
      var (r, e1) := Send(port.value, PressView(command.value, keySet), e);
      (Caught(r), e1)
  }

  /** The view of `new PressKeyAndHoldCommand(command, keySet, amount, mode)`. */
  function HoldOf(command: string, keySet: string, amount: int, mode: int): View
  {
    HoldView(command, keySet, mode,
      if mode == REPEAT_MODE then Clamp(amount) else 0,
      if mode == DURATION_MODE then Clamp(amount) else 0)
  }

  /** `pressKeyAndHold` / `pressKeyAndHoldDuration`: one hold press, then `sleepOnTrue`. */
  function Hold(port: Option<Family>, command: Option<string>, keySet: string, amount: int, mode: int,
                delay: int, e: Env): (Result<bool>, Env)
  {
    if port.None? || command.None? then (Ok(false), e)
    else
      var (r, e1) := Send(port.value, HoldOf(command.value, keySet, amount, mode), e);
      (Caught(r), AfterPress(r, delay, e1))
  }

  /** `pressKeys(commands, d)`: the whole tree in one `sendCommand`, then `sleepOnTrue`. */
  function Keys(port: Option<Family>, commands: Option<seq<string>>, keySet: string, d: int, delay: int, e: Env): (Result<bool>, Env)
  {
    if port.None? || commands.None? then (Ok(false), e)
    else
      var o := Run(port.value, Acts(port.value, KeysTree(commands.value, keySet, Clamp(d))), e, true, 0);
      (Caught(o.res), AfterPress(o.res, delay, o.env))
  }

  // ------------------------------------------------------------ the trees

  /** A tree fresh from its constructors and `add` calls, and the views of its nodes in pre-order. */
  ghost predicate Fresh(c: CatsCommand, xs: seq<Option<View>>)
    reads c, c.Repr
  {
    c.Valid() && c.hasNextCounter == 0 && c.Sized() && Idle(c.Model) &&
    Views(ViewMap(c.Repr), PreOrder(c.Model)) == xs
  }

  /** `devicePort.sendCommand(tree)` on a fresh tree: the actions of its nodes, in pre-order. */
  method SendFresh(f: Family, c: CatsCommand, ghost xs: seq<Option<View>>, e0: Env) returns (r: Result<bool>, e: Env)
    requires Fresh(c, xs)
    modifies c.Repr
    ensures var o := Run(f, Acts(f, xs), e0, true, 0); r == o.res && e == o.env
  {
    ghost var vm := ViewMap(c.Repr);
    ghost var m0 := c.Model;
    ghost var n := Passes(c.hasNextCounter, c.activeSize);
    r, e := SendCommand(f, c, e0);
    PlanIsDrain(f, vm, m0, n);
  }

  /** One more node at the end, with the earlier nodes' views unchanged. */
  lemma ViewsExtend(vm: map<CatsCommand, View>, vm': map<CatsCommand, View>, pre: seq<CatsCommand?>, p: CatsCommand)
    requires forall k :: 0 <= k < |pre| ==> pre[k] != null && pre[k] in vm && pre[k] in vm' && vm'[pre[k]] == vm[pre[k]]
    requires p in vm'
    ensures Views(vm', pre + [p]) == Views(vm, pre) + [Some(vm'[p])]
  {
    var a := Views(vm', pre + [p]);
    var b := Views(vm, pre) + [Some(vm'[p])];
    forall k | 0 <= k < |a|
      ensures a[k] == b[k]
    {
      if k < |pre| {
        assert (pre + [p])[k] == pre[k];
      }
    }
  }

  /** The node list of a command fresh from its constructor is the command alone. */
  lemma LeafPreOrder(p: CatsCommand)
    ensures PreOrder(Tree(p, 0, true, [])) == [p]
  {
  }

  /** The nodes of the tree are commands of its footprint. */
  ghost predicate Covered(c: CatsCommand)
    reads c
  {
    forall k :: 0 <= k < |PreOrder(c.Model)| ==> PreOrder(c.Model)[k] in c.Repr
  }

  /** `add(p)` of a command fresh from its constructor: one more node, at the end. */
  method AddLeaf(c: CatsCommand, p: CatsCommand, ghost xs: seq<Option<View>>)
    requires Fresh(c, xs) && Covered(c) && |c.catsCommands| > 0
    requires p.Valid() && p.Repr == {p} && p !in c.Repr && p.Model == Tree(p, 0, true, []) && p.catsCommands == [p]
    requires p.Sized() && Idle(p.Model)
    modifies c`catsCommands, c`activeSize, c`Model, c`Repr
    ensures c.Repr == old(c.Repr) + {p} && Covered(c) && |c.catsCommands| > 0
    ensures Fresh(c, xs + [Some(p.View())])
  {
    ghost var m := c.Model;
    ghost var vm := ViewMap(c.Repr);
    LeafPreOrder(p);
    var _ := c.Add(p);
    PreOrderAdd(m, p.Model);
    ghost var pre := PreOrder(m);
    assert PreOrder(c.Model) == pre + [p];
    ghost var vm' := ViewMap(c.Repr);
    assert forall x | x in old(c.Repr) :: x in vm' && vm'[x] == vm[x];
    ViewsExtend(vm, vm', pre, p);
  }

  /** One pass of the `pressKeys` loop: `add(new PressKeyCommand(cmd, keySet)).add(new DelayCommand(d))`. */
  method AddKey(c: CatsCommand, cmd: string, keySet: string, d: int, ghost xs: seq<Option<View>>)
    requires Fresh(c, xs) && Covered(c) && |c.catsCommands| > 0
    modifies c`catsCommands, c`activeSize, c`Model, c`Repr
    ensures fresh(c.Repr - old(c.Repr)) && Covered(c) && |c.catsCommands| > 0
    ensures Fresh(c, xs + [Some(PressView(cmd, keySet)), Some(DelayView(Clamp(d)))])
  {
    AddPress(c, cmd, keySet, xs);
    AddDelay(c, d, xs + [Some(PressView(cmd, keySet))]);
    assert xs + [Some(PressView(cmd, keySet))] + [Some(DelayView(Clamp(d)))] == xs + [Some(PressView(cmd, keySet)), Some(DelayView(Clamp(d)))];
  }

  /** `add(new PressKeyCommand(cmd, keySet))`. */
  method AddPress(c: CatsCommand, cmd: string, keySet: string, ghost xs: seq<Option<View>>)
    requires Fresh(c, xs) && Covered(c) && |c.catsCommands| > 0
    modifies c`catsCommands, c`activeSize, c`Model, c`Repr
    ensures fresh(c.Repr - old(c.Repr)) && Covered(c) && |c.catsCommands| > 0
    ensures Fresh(c, xs + [Some(PressView(cmd, keySet))])
  {
    var p := new CatsCommand.PressKey(cmd, keySet);
    AddLeaf(c, p, xs);
  }

  /** `add(new DelayCommand(d))`. */
  method AddDelay(c: CatsCommand, d: int, ghost xs: seq<Option<View>>)
    requires Fresh(c, xs) && Covered(c) && |c.catsCommands| > 0
    modifies c`catsCommands, c`activeSize, c`Model, c`Repr
    ensures fresh(c.Repr - old(c.Repr)) && Covered(c) && |c.catsCommands| > 0
    ensures Fresh(c, xs + [Some(DelayView(Clamp(d)))])
  {
    var q := new CatsCommand.Delay(d);
    AddLeaf(c, q, xs);
  }

  /**
   * The tree `pressKeys` builds: the group, then for each command a
   * `PressKeyCommand` and a `DelayCommand(d)`.
   */
  method BuildKeys(commands: seq<string>, keySet: string, d: int) returns (c: CatsCommand)
    ensures fresh(c.Repr) && Fresh(c, KeysTree(commands, keySet, Clamp(d)))
  {
    c := new CatsCommand.Named(PRESS_KEYS_NAME);
    LeafPreOrder(c);
    var i := 0;
    while i < |commands|
      invariant 0 <= i <= |commands|
      invariant fresh(c.Repr) && Covered(c) && |c.catsCommands| > 0
      invariant Fresh(c, KeysTree(commands[..i], keySet, Clamp(d)))
    {
      AddKey(c, commands[i], keySet, d, KeysTree(commands[..i], keySet, Clamp(d)));
      assert commands[..i + 1][..i] == commands[..i];
      i := i + 1;
    }
    assert commands[..i] == commands;
  }

  // ------------------------------------------------------------ repetition

  /** What one round of a `pressKey(count, …)` loop does. */
  datatype Round = PressRound(command: Option<string>) | KeysRound(commands: seq<string>, gap: int)

  function Once(port: Option<Family>, keySet: string, delay: int, round: Round, e: Env): (Result<bool>, Env)
  {
    match round
    case PressRound(command) => Press(port, command, keySet, e)
    case KeysRound(commands, gap) => Keys(port, Some(commands), keySet, gap, delay, e)
  }

  /** One round as a step of the environment. */
  function StepOf(port: Option<Family>, keySet: string, delay: int, round: Round): Env -> (Result<bool>, Env)
  {
    x => Once(port, keySet, delay, round, x)
  }

  /** The sleep after a successful round, if the loop has one. */
  function Nap(e: Env, gap: Option<int>): Env
  {
    if gap.Some? then Pause(e, gap.value) else e
  }

  /**
   * `n` rounds, stopping after the first that is not true (its result is
   * returned, false or an exception); true when all of them were.
   */
  function Repeat(step: Env -> (Result<bool>, Env), n: nat, gap: Option<int>, e: Env): (Result<bool>, Env)
    decreases n
  {
    if n == 0 then (Ok(true), e)
    else
      var (r, e1) := step(e);
      if r != Ok(true) then (r, e1) else Repeat(step, n - 1, gap, Nap(e1, gap))
  }

  /** `n + m` rounds are `n` rounds, then `m` more only if the first `n` all succeeded. */
  lemma {:induction false} RepeatSplit(step: Env -> (Result<bool>, Env), n: nat, m: nat, gap: Option<int>, e: Env)
    ensures var (r, e1) := Repeat(step, n, gap, e);
      Repeat(step, n + m, gap, e) == if r == Ok(true) then Repeat(step, m, gap, e1) else (r, e1)
    decreases n
  {
    if n > 0 {
      var (r, e1) := step(e);
      if r == Ok(true) {
        RepeatSplit(step, n - 1, m, gap, Nap(e1, gap));
        assert n + m - 1 == (n - 1) + m;
      }
    }
  }

  /** A round that keeps the pool balanced, repeated, keeps it balanced. */
  lemma {:induction false} RepeatReleases(step: Env -> (Result<bool>, Env), n: nat, gap: Option<int>, e: Env)
    requires forall x :: step(x).1.borrowed == x.borrowed
    ensures Repeat(step, n, gap, e).1.borrowed == e.borrowed
    decreases n
  {
    if n > 0 {
      var (r, e1) := step(e);
      if r == Ok(true) {
        RepeatReleases(step, n - 1, gap, Nap(e1, gap));
      }
    }
  }

  lemma SendReleases(f: Family, v: View, e: Env)
    ensures Send(f, v, e).1.borrowed == e.borrowed
  {
    if f.OnHub() && Translate(f, v).Some? {
      HubDispatchReleases(Translate(f, v).value, e);
    }
  }

  /** Every press gives back every communicator it takes. */
  lemma OnceReleases(port: Option<Family>, keySet: string, delay: int, round: Round, e: Env)
    ensures Once(port, keySet, delay, round, e).1.borrowed == e.borrowed
  {
    if port.Some? {
      var f := port.value;
      match round
      case PressRound(command) =>
        if command.Some? {
          SendReleases(f, PressView(command.value, keySet), e);
        }
      case KeysRound(commands, gap) =>
        RunReleases(f, Acts(f, KeysTree(commands, keySet, Clamp(gap))), e, true, 0);
    }
  }

  /** However a counted loop of presses ends, the pool has as many communicators out as before it. */
  lemma LoopReleases(port: Option<Family>, keySet: string, delay: int, round: Round, n: nat, gap: Option<int>, e: Env)
    ensures Repeat(StepOf(port, keySet, delay, round), n, gap, e).1.borrowed == e.borrowed
  {
    forall x
      ensures StepOf(port, keySet, delay, round)(x).1.borrowed == x.borrowed
    {
      OnceReleases(port, keySet, delay, round, x);
    }
    RepeatReleases(StepOf(port, keySet, delay, round), n, gap, e);
  }

  // ------------------------------------------------------------ channels

  /** The keys `tune` presses: the digit words, then SELECT unless auto-tune is on. */
  function TuneKeys(channel: string, autoTune: bool): (r: seq<string>)
    requires ValidChannel(channel)
    ensures |r| == |channel| + (if autoTune then 0 else 1)
    ensures forall i :: 0 <= i < |channel| ==> Some(r[i]) == Parse(channel[i])
    ensures !autoTune ==> r[|channel|] == SELECT
  {
    ChannelWords(channel) + (if autoTune then [] else [SELECT])
  }

  function Pow10(k: nat): (p: nat)
    ensures p >= 1
  {
    if k == 0 then 1 else 10 * Pow10(k - 1)
  }

  /** The decimal rendering of `n` has at most `k` digits exactly when `n < 10^k`. */
  lemma {:induction false} NatToStringFits(n: nat, k: nat)
    requires k >= 1
    ensures |NatToString(n)| <= k <==> n < Pow10(k)
    decreases k
  {
    if n >= 10 && k >= 2 {
      NatToStringFits(n / 10, k - 1);
      assert n / 10 < Pow10(k - 1) <==> n < 10 * Pow10(k - 1);
    } else if n >= 10 {
      assert |NatToString(n)| == |NatToString(n / 10)| + 1;
    }
  }

  /** `tune(Integer)` accepts exactly the channels 0 to 9999. */
  lemma TuneIntChannels(n: int)
    ensures ValidChannel(IntToString(n)) <==> 0 <= n <= 9999
  {
    if n < 0 {
      assert !IsAsciiDigit(IntToString(n)[0]);
    } else {
      NatToStringFits(n, 4);
      assert Pow10(4) == 10000;
    }
  }

  /** `text` as one-character strings, in order. */
  function Singles(text: string): (r: seq<string>)
    ensures |r| == |text|
    ensures forall i :: 0 <= i < |text| ==> r[i] == [text[i]]
  {
    seq(|text|, i requires 0 <= i < |text| => [text[i]])
  }

  // ------------------------------------------------------------ the remote

  class LocalRemote {
    const port: Option<Family>
    var remoteType: string
    var delay: int
    var autoTuneEnabled: bool

    /** `delay` is only ever set through `verifyDelay`. */
    ghost predicate Valid()
      reads this
    {
      0 <= delay <= MAX_DELAY
    }

    /** `new LocalRemote(devicePort, remoteType)`; `port` is None for a null device port. */
    constructor (p: Option<Family>, rt: string)
      ensures Valid() && port == p && remoteType == rt && delay == 0 && !autoTuneEnabled
    {
      port := p;
      remoteType := rt;
      delay := 0;
      autoTuneEnabled := false;
    }

    /** `getDelay()`. */
    function GetDelay(): (d: int)
      requires Valid()
      reads this
      ensures 0 <= d <= MAX_DELAY && d == delay
    {
      delay
    }

    /** `setRemoteType`: null or empty is an IllegalArgumentException and changes nothing. */
    method SetRemoteType(rt: Option<string>) returns (r: Result<()>)
      modifies this`remoteType
      ensures r.Err? <==> rt.None? || rt.value == ""
      ensures r.Err? ==> r.error == IllegalArgument && remoteType == old(remoteType)
      ensures r.Ok? ==> remoteType == rt.value
    {
      if rt.None? || rt.value == "" {
        return Err(IllegalArgument);
      }
      remoteType := rt.value;
      r := Ok(());
    }

    method SetAutoTuneEnabled(b: bool)
      modifies this`autoTuneEnabled
      ensures autoTuneEnabled == b
    {
      autoTuneEnabled := b;
    }

    /** `setDelay`: a delay `verifyDelay` refuses is an exception and is not stored. */
    method SetDelay(d: int) returns (r: Result<()>)
      requires Valid()
      modifies this`delay
      ensures Valid() && r == VerifyDelay(d)
      ensures delay == if r.Ok? then d else old(delay)
    {
      r := VerifyDelay(d);
      if r.Ok? {
        delay := d;
      }
    }

    /** `pressKey(command)`. */
    method PressKey(command: Option<string>, e0: Env) returns (r: Result<bool>, e: Env)
      ensures (r, e) == Press(port, command, remoteType, e0)
    {
      if port.None? || command.None? {
        return Ok(false), e0;
      }
      var v := PressView(command.value, remoteType);
      var p := new CatsCommand.PressKey(command.value, remoteType);
      LeafPreOrder(p);
      var res;
      res, e := SendFresh(port.value, p, [Some(v)], e0);
      RunOne(port.value, v, e0);
      r := Caught(res);
    }

    /** `pressKey(command, delay)`: the delay is checked first, and slept after a press that did not throw. */
    method PressKeyDelay(command: Option<string>, d: int, e0: Env) returns (r: Result<bool>, e: Env)
      ensures VerifyDelay(d).Err? ==> r == Err(IllegalArgument) && e == e0
      ensures VerifyDelay(d).Ok? ==>
        var (q, e1) := Press(port, command, remoteType, e0);
        r == q && e == if q.Err? then e1 else Pause(e1, d)
    {
      if VerifyDelay(d).Err? {
        return Err(IllegalArgument), e0;
      }
      r, e := PressKey(command, e0);
      if r.Ok? {
        e := Pause(e, d);
      }
    }

    /** The hold press of `pressKeyAndHold` and `pressKeyAndHoldDuration`. */
    method PressHold(command: Option<string>, amount: int, mode: int, e0: Env) returns (r: Result<bool>, e: Env)
      requires mode == REPEAT_MODE || mode == DURATION_MODE
      ensures (r, e) == Hold(port, command, remoteType, amount, mode, delay, e0)
    {
      if port.None? || command.None? {
        return Ok(false), e0;
      }
      var p := new CatsCommand.PressKeyAndHold(command.value, remoteType, amount, Some(mode));
      var v := HoldOf(command.value, remoteType, amount, mode);
      LeafPreOrder(p);
      var res;
      res, e := SendFresh(port.value, p, [Some(v)], e0);
      RunOne(port.value, v, e0);
      if res.Ok? {
        r := res;
        if res.value && delay > 0 {
          e := Pause(e, delay);
        }
      } else {
        r := Caught(res);
      }
    }

    /** `pressKeyAndHold(command, count)`: REPEAT_MODE with the count. */
    method PressKeyAndHold(command: Option<string>, count: int, e0: Env) returns (r: Result<bool>, e: Env)
      ensures (r, e) == Hold(port, command, remoteType, count, REPEAT_MODE, delay, e0)
    {
      r, e := PressHold(command, count, REPEAT_MODE, e0);
    }

    /** `pressKeyAndHoldDuration(command, durationSec)`: DURATION_MODE with the duration. */
    method PressKeyAndHoldDuration(command: Option<string>, durationSec: int, e0: Env) returns (r: Result<bool>, e: Env)
      ensures (r, e) == Hold(port, command, remoteType, durationSec, DURATION_MODE, delay, e0)
    {
      r, e := PressHold(command, durationSec, DURATION_MODE, e0);
    }

    /** `pressKeys(commands, d)`: one tree of all the presses, each followed by `DelayCommand(d)`. */
    method PressKeysDelay(commands: Option<seq<string>>, d: int, e0: Env) returns (r: Result<bool>, e: Env)
      ensures (r, e) == Keys(port, commands, remoteType, d, delay, e0)
    {
      if port.None? || commands.None? {
        return Ok(false), e0;
      }
      var c := BuildKeys(commands.value, remoteType, d);
      var res;
      res, e := SendFresh(port.value, c, KeysTree(commands.value, remoteType, Clamp(d)), e0);
      if res.Ok? {
        r := res;
        if res.value && delay > 0 {
          e := Pause(e, delay);
        }
      } else {
        r := Caught(res);
      }
    }

    /** `pressKeys(commands)`: the same tree with `DelayCommand(0)`. */
    method PressKeys(commands: Option<seq<string>>, e0: Env) returns (r: Result<bool>, e: Env)
      ensures (r, e) == Keys(port, commands, remoteType, 0, delay, e0)
    {
      r, e := PressKeysDelay(commands, 0, e0);
    }

    /** `pressKey(String[])`. */
    method PressKeyArray(commands: seq<string>, e0: Env) returns (r: Result<bool>, e: Env)
      ensures (r, e) == Keys(port, Some(commands), remoteType, 0, delay, e0)
    {
      r, e := PressKeys(Some(commands), e0);
    }

    /** `pressKey(Integer)`: the decimal rendering of the number as the command. */
    method PressKeyInt(command: int, e0: Env) returns (r: Result<bool>, e: Env)
      ensures (r, e) == Press(port, Some(IntToString(command)), remoteType, e0)
    {
      r, e := PressKey(Some(IntToString(command)), e0);
    }

    /** One round of a counted loop. */
    method Round1(round: Round, ghost step: Env -> (Result<bool>, Env), e0: Env) returns (r: Result<bool>, e: Env)
      requires forall x {:trigger Once(port, remoteType, delay, round, x)} :: step(x) == Once(port, remoteType, delay, round, x)
      ensures (r, e) == step(e0)
    {
      assert step(e0) == Once(port, remoteType, delay, round, e0);
      match round
      case PressRound(command) =>
        r, e := PressKey(command, e0);
      case KeysRound(commands, gap) =>
        r, e := PressKeysDelay(Some(commands), gap, e0);
    }

    /** The `for (i = 0; i < count; i++)` loops, with their optional sleep after each success. */
    method Loop(count: int, round: Round, ghost step: Env -> (Result<bool>, Env), gap: Option<int>, e0: Env)
      returns (r: Result<bool>, e: Env)
      requires forall x {:trigger Once(port, remoteType, delay, round, x)} :: step(x) == Once(port, remoteType, delay, round, x)
      ensures (r, e) == Repeat(step, Clamp(count), gap, e0)
    {
      ghost var goal := Repeat(step, Clamp(count), gap, e0);
      ghost var left: nat := Clamp(count);
      r, e := Ok(true), e0;
      var i := 0;
      while i < count
        invariant 0 <= i <= Clamp(count) && left == Clamp(count) - i
        invariant goal == Repeat(step, left, gap, e)
        invariant r == Ok(true)
      {
        r, e := Round1(round, step, e);
        if r != Ok(true) {
          return;
        }
        if gap.Some? {
          e := Pause(e, gap.value);
        }
        i := i + 1;
        left := left - 1;
      }
    }

    /** `pressKey(count, command)`: with count <= 0 nothing is pressed and the answer is true. */
    method PressKeyCount(count: int, command: Option<string>, e0: Env) returns (r: Result<bool>, e: Env)
      ensures (r, e) == Repeat(StepOf(port, remoteType, delay, PressRound(command)), Clamp(count), None, e0)
      ensures count <= 0 ==> r == Ok(true) && e == e0
    {
      r, e := Loop(count, PressRound(command), StepOf(port, remoteType, delay, PressRound(command)), None, e0);
    }

    /** `pressKey(count, command, delay)`: the delay is checked, then slept after each successful press. */
    method PressKeyCountDelay(count: int, command: Option<string>, d: int, e0: Env) returns (r: Result<bool>, e: Env)
      ensures VerifyDelay(d).Err? ==> r == Err(IllegalArgument) && e == e0
      ensures VerifyDelay(d).Ok? ==> (r, e) == Repeat(StepOf(port, remoteType, delay, PressRound(command)), Clamp(count), Some(d), e0)
    {
      if VerifyDelay(d).Err? {
        return Err(IllegalArgument), e0;
      }
      r, e := Loop(count, PressRound(command), StepOf(port, remoteType, delay, PressRound(command)), Some(d), e0);
    }

    /** `pressKey(count, delay, commands)`: the whole list `count` times, sleeping `delay` after each success. */
    method PressKeyCountDelayCommands(count: int, d: int, commands: seq<string>, e0: Env) returns (r: Result<bool>, e: Env)
      ensures VerifyDelay(d).Err? ==> r == Err(IllegalArgument) && e == e0
      ensures VerifyDelay(d).Ok? ==> (r, e) == Repeat(StepOf(port, remoteType, delay, KeysRound(commands, d)), Clamp(count), Some(d), e0)
    {
      if VerifyDelay(d).Err? {
        return Err(IllegalArgument), e0;
      }
      r, e := Loop(count, KeysRound(commands, d), StepOf(port, remoteType, delay, KeysRound(commands, d)), Some(d), e0);
    }

    /**
     * `sendText(text)`: false for null or empty text; otherwise each
     * character, as itself, pressed with REPEAT_IR_COMMAND_DELAY between
     * them, an IllegalArgumentException becoming false.
     */
    method SendText(text: Option<string>, e0: Env) returns (r: Result<bool>, e: Env)
      ensures text.None? || text.value == "" ==> r == Ok(false) && e == e0
      ensures text.Some? && text.value != "" ==>
        var (q, e1) := Keys(port, Some(Singles(text.value)), remoteType, REPEAT_IR_COMMAND_DELAY, delay, e0);
        r == (if q == Err(IllegalArgument) then Ok(false) else q) && e == e1
    {
      if text.None? || text.value == "" {
        return Ok(false), e0;
      }
      var commands := CharKeys(text.value);
      assert commands == Singles(text.value);
      r, e := PressKeysDelay(Some(commands), REPEAT_IR_COMMAND_DELAY, e0);
      if r == Err(IllegalArgument) {
        r := Ok(false);
      }
    }

    /**
     * `tune(channel, delay)`: anything but one to four ASCII digits is an
     * IllegalArgumentException; otherwise the digit words, then SELECT
     * unless auto-tune is enabled, go out as one `pressKeys(commands, delay)`.
     */
    method Tune(channel: string, d: int, e0: Env) returns (r: Result<bool>, e: Env)
      ensures !ValidChannel(channel) ==> r == Err(IllegalArgument) && e == e0
      ensures ValidChannel(channel) ==> (r, e) == Keys(port, Some(TuneKeys(channel, autoTuneEnabled)), remoteType, d, delay, e0)
    {
      if !ValidChannel(channel) {
        return Err(IllegalArgument), e0;
      }
      var commands := GetRemoteCommandFromChannel(channel);
      var keys := commands.value;
      if !autoTuneEnabled {
        keys := keys + [SELECT];
      } else {
        assert keys == keys + [];
      }
      r, e := PressKeysDelay(Some(keys), d, e0);
    }

    /** `tune(channel)`: DELAY_BETWEEN_KEYS between the keys. */
    method TuneDefault(channel: string, e0: Env) returns (r: Result<bool>, e: Env)
      ensures !ValidChannel(channel) ==> r == Err(IllegalArgument) && e == e0
      ensures ValidChannel(channel) ==>
        (r, e) == Keys(port, Some(TuneKeys(channel, autoTuneEnabled)), remoteType, DELAY_BETWEEN_KEYS, delay, e0)
    {
      r, e := Tune(channel, DELAY_BETWEEN_KEYS, e0);
    }

    /** `tune(Integer channel, Integer delay)`: negative numbers and numbers above 9999 are refused. */
    method TuneIntDelay(channel: int, d: int, e0: Env) returns (r: Result<bool>, e: Env)
      ensures ValidChannel(IntToString(channel)) <==> 0 <= channel <= 9999
      ensures !(0 <= channel <= 9999) ==> r == Err(IllegalArgument) && e == e0
      ensures ValidChannel(IntToString(channel)) ==>
        (r, e) == Keys(port, Some(TuneKeys(IntToString(channel), autoTuneEnabled)), remoteType, d, delay, e0)
    {
      TuneIntChannels(channel);
      r, e := Tune(IntToString(channel), d, e0);
    }

    /** `tune(Integer channel)`. */
    method TuneInt(channel: int, e0: Env) returns (r: Result<bool>, e: Env)
      ensures ValidChannel(IntToString(channel)) <==> 0 <= channel <= 9999
      ensures !(0 <= channel <= 9999) ==> r == Err(IllegalArgument) && e == e0
      ensures ValidChannel(IntToString(channel)) ==>
        (r, e) == Keys(port, Some(TuneKeys(IntToString(channel), autoTuneEnabled)), remoteType, DELAY_BETWEEN_KEYS, delay, e0)
    {
      r, e := TuneIntDelay(channel, DELAY_BETWEEN_KEYS, e0);
    }

    /** `performShorthandCommandSequence(text, delay)`: always an UnsupportedOperationException. */
    method PerformShorthand(text: string, d: int) returns (r: Result<bool>)
      ensures r == Err(Unsupported)
    {
      r := Err(Unsupported);
    }
  }
}
