/**
 * The wire translators: each port family turns one IR leaf of a command tree
 * into the text its hardware (or the RedRat hub / the Global Cache dispatcher)
 * understands, by chained `String.replace` on a command template. Only
 * press-key commands (and their press-and-hold subclass) are translated;
 * every other command yields null (`None`).
 *
 * The functions follow the Java code call by call. The lemmas below them give
 * the exact output when the substituted values contain no '<'.
 */
module Translators {
  import opened Wrappers
  import opened JavaText
  import opened Templates
  import opened Commands

  // ------------------------------------------------------- RedRat hub templates

  const IPADDRESS: Name := "ipAddress"
  const NAME: Name := "name"
  const KEYSET: Name := "keyset"
  const KEY: Name := "key"
  const PORT: Name := "port"
  const DURATION: Name := "duration"
  const REPEAT: Name := "repeat"

  /** `ip="<ipAddress>" dataset="<keyset>" signal="<key>" output="<port>"` */
  const IRNETBOX_IR_COMMAND: Tpl :=
    Lit("ip=\"", Hole(IPADDRESS, Lit("\" dataset=\"", Hole(KEYSET, Lit("\" signal=\"",
      Hole(KEY, Lit("\" output=\"", Hole(PORT, Lit("\"", End)))))))))

  /** ` repeats="<repeat>"` */
  const IRNETBOX_REPEAT_COMMAND_APPEND: Tpl := Lit(" repeats=\"", Hole(REPEAT, Lit("\"", End)))

  /** ` duration="<duration>"` */
  const IRNETBOX_DURATION_COMMAND_APPEND: Tpl := Lit(" duration=\"", Hole(DURATION, Lit("\"", End)))

  /** `name="<name>" dataset="<keyset>" signal="<key>"` */
  const REDRAT3_IR_COMMAND: Tpl :=
    Lit("name=\"", Hole(NAME, Lit("\" dataset=\"", Hole(KEYSET, Lit("\" signal=\"", Hole(KEY, Lit("\"", End)))))))

  /** `hubQuery="add irnetbox" ip="<ipAddress>"` */
  const ADD_IRNETBOX: Tpl := Lit("hubQuery=\"add irnetbox\" ip=\"", Hole(IPADDRESS, Lit("\"", End)))

  /** The key suffix the RedRat3 uses for every press-and-hold. */
  const REPEAT_COUNT_35: string := "_repeat35"

  // ------------------------------------------------------- Global Cache templates

  const MODULE: Name := "module"
  const ID: Name := "id"
  const FREQUENCY: Name := "frequency"
  const OFFSET: Name := "offset"
  const GC_PORT: Name := "ir_port_number"
  const REPEATS: Name := "repeats"

  /** `sendir,<module>:<ir_port_number>,<id>,<frequency>,<repeat>,<offset>` */
  const SEND_COMMAND: Tpl :=
    Lit("sendir,", Hole(MODULE, Lit(":", Hole(GC_PORT, Lit(",", Hole(ID, Lit(",",
      Hole(FREQUENCY, Lit(",", Hole(REPEAT, Lit(",", Hole(OFFSET, End))))))))))))

  /** `host=<id>&ir_port_number=<ir_port_number>&keyset=<keyset>&key=<key>` */
  const PRESS_KEY_COMMAND: Tpl :=
    Lit("host=", Hole(ID, Lit("&ir_port_number=", Hole(GC_PORT, Lit("&keyset=", Hole(KEYSET,
      Lit("&key=", Hole(KEY, End))))))))

  /** `&duration=<duration>` */
  const PRESS_KEY_DURATION_COMMAND: Tpl := Lit("&duration=", Hole(DURATION, End))

  /** `&repeats=<repeats>` */
  const PRESS_KEY_REPEATS_COMMAND: Tpl := Lit("&repeats=", Hole(REPEATS, End))

  /** `"" + (duration * 1000)` on a Java `int`. */
  function MillisText(duration: int): string
  {
    IntToString(Wrap32(duration * 1000))
  }

  // ------------------------------------------------------- translators

  /** `IrNetBoxProPort.getDeviceUnderstandablePressKeyCommand`. */
  function IrNetBoxCommand(ip: string, port: int, v: View): (r: Option<string>)
    ensures r.Some? <==> v.IsIr()
  {
    if !v.IsIr() then None
    else
      var base := Replace(Replace(Replace(Render(IRNETBOX_IR_COMMAND), Arg(IPADDRESS), ip),
                                  Arg(KEYSET), v.keySet), Arg(PORT), IntToString(port));
      var held :=
        if v.HoldView? && v.mode == REPEAT_MODE then
          Replace(base + Render(IRNETBOX_REPEAT_COMMAND_APPEND), Arg(REPEAT), IntToString(v.count))
        else if v.HoldView? && v.mode == DURATION_MODE then
          Replace(base + Render(IRNETBOX_DURATION_COMMAND_APPEND), Arg(DURATION), MillisText(v.duration))
        else base;
      Some(Replace(held, Arg(KEY), v.key))
  }

  /** `RedRat3Port.getDeviceUnderstandablePressKeyCommand`: addressed by device name. */
  function RedRat3Command(deviceName: string, v: View): (r: Option<string>)
    ensures r.Some? <==> v.IsIr()
  {
    if !v.IsIr() then None
    else
      var base := Replace(Replace(Render(REDRAT3_IR_COMMAND), Arg(NAME), deviceName), Arg(KEYSET), v.keySet);
      var key := if v.HoldView? then v.key + REPEAT_COUNT_35 else v.key;
      Some(Replace(base, Arg(KEY), key))
  }

  /** The key as the iTach dispatcher expects it: spaces become '_', then upper case. */
  function ITachKey(key: string): string
  {
    ToUpper(Replace(key, " ", "_"))
  }

  /** The query string template with the host, port, keyset and key filled, in that order. */
  function ITachBaseText(ip: string, port: int, keySet: string, key: string): string
  {
    Replace(Replace(Replace(Replace(Render(PRESS_KEY_COMMAND), Arg(ID), ip),
      Arg(GC_PORT), IntToString(port)), Arg(KEYSET), ToUpper(keySet)), Arg(KEY), ITachKey(key))
  }

  /** `iTachPort.getDeviceUnderstandablePressKeyCommand` with `handleRepeats` and `handleDuration`. */
  function ITachCommand(ip: string, port: int, v: View): (r: Option<string>)
    ensures r.Some? <==> v.IsIr()
  {
    if !v.IsIr() then None
    else
      var base := ITachBaseText(ip, port, v.keySet, v.key);
      if v.HoldView? && v.mode == REPEAT_MODE then
        Some(Replace(base + Render(PRESS_KEY_REPEATS_COMMAND), Arg(REPEATS), IntToString(v.count)))
      else if v.HoldView? && v.mode == DURATION_MODE then
        Some(Replace(base + Render(PRESS_KEY_DURATION_COMMAND), Arg(DURATION), MillisText(v.duration)))
      else Some(base)
  }

  /**
   * `GC100Port.getDeviceUnderstandablePressKeyCommand`: only `<module>` is
   * filled in the sendir template; the hold suffixes are the RedRat ones.
   */
  function GC100Command(deviceModule: string, v: View): (r: Option<string>)
    ensures r.Some? <==> v.IsIr()
  {
    if !v.IsIr() then None
    else
      var base := Replace(Render(SEND_COMMAND), Arg(MODULE), deviceModule);
      var held :=
        if v.HoldView? && v.mode == REPEAT_MODE then
          Replace(base + Render(IRNETBOX_REPEAT_COMMAND_APPEND), Arg(REPEAT), IntToString(v.count))
        else if v.HoldView? && v.mode == DURATION_MODE then
          Replace(base + Render(IRNETBOX_DURATION_COMMAND_APPEND), Arg(DURATION), MillisText(v.duration))
        else base;
      Some(Replace(held, Arg(KEY), v.key))
  }

  // ------------------------------------------------------- rendering helpers

  lemma IntToStringNoLt(n: int)
    ensures NoLt(IntToString(n))
  {
    IntToStringChars(n);
  }

  lemma IrNetBoxShape(env: map<string, string>)
    requires IPADDRESS in env && KEYSET in env && KEY in env && PORT in env
    ensures Subst(IRNETBOX_IR_COMMAND, env) == IrNetBoxText(env[IPADDRESS], env[KEYSET], env[KEY], env[PORT])
  {
    var t := IRNETBOX_IR_COMMAND;
    assert Subst(t.next.next.next.next.next.next.next.next, env) == "\"";
    assert Subst(t.next.next.next.next.next.next, env) == "\" output=\"" + (env[PORT] + "\"");
    assert Subst(t.next.next.next.next, env) == "\" signal=\"" + (env[KEY] + ("\" output=\"" + (env[PORT] + "\"")));
    assert Subst(t.next.next, env) == "\" dataset=\"" + (env[KEYSET] + ("\" signal=\"" + (env[KEY] + ("\" output=\"" + (env[PORT] + "\"")))));
  }

  /** The hold suffixes hold one placeholder, and no `<key>`. */
  lemma SuffixUnfilled(t: Tpl, lit: Plain, name: Name, env: map<string, string>)
    requires t == Lit(lit, Hole(name, Lit("\"", End))) && name !in env
    ensures Unfilled(t, env) && (name != KEY ==> Lacks(t, KEY))
  {
    assert Unfilled(Lit("\"", End), env) && Lacks(Lit("\"", End), KEY);
  }

  /** The sendir template has no `<key>`. */
  lemma SendLacksKey()
    ensures Lacks(SEND_COMMAND, KEY)
  {
    var t := SEND_COMMAND;
    assert Lacks(t.next.next.next.next.next.next.next.next.next.next.next, KEY);
    assert Lacks(t.next.next.next.next.next.next.next.next.next, KEY);
    assert Lacks(t.next.next.next.next.next.next.next, KEY);
    assert Lacks(t.next.next.next.next.next, KEY);
    assert Lacks(t.next.next.next, KEY);
    assert Lacks(t.next, KEY);
  }

  lemma SuffixShape(t: Tpl, lit: Plain, name: Name, env: map<string, string>)
    requires t == Lit(lit, Hole(name, Lit("\"", End))) && name in env
    ensures Subst(t, env) == lit + (env[name] + "\"")
  {
    assert Subst(Lit("\"", End), env) == "\"";
  }

  /** The first three `replace` calls of the IrNetBox translator fill the address, the keyset and the port. */
  lemma ReplaceIrNetBox(ip: string, port: int, keySet: string)
    requires NoLt(ip) && NoLt(keySet)
    ensures Replace(Replace(Replace(Render(IRNETBOX_IR_COMMAND), Arg(IPADDRESS), ip), Arg(KEYSET), keySet),
                    Arg(PORT), IntToString(port)) ==
            Subst(IRNETBOX_IR_COMMAND, map[IPADDRESS := ip, KEYSET := keySet, PORT := IntToString(port)])
  {
    var t := IRNETBOX_IR_COMMAND;
    IntToStringNoLt(port);
    ReplaceSubst(t, map[], IPADDRESS, ip);
    ReplaceSubst(t, map[IPADDRESS := ip], KEYSET, keySet);
    ReplaceSubst(t, map[IPADDRESS := ip, KEYSET := keySet], PORT, IntToString(port));
  }

  /** The plain press text of the IrNetBox: `ip="…" dataset="…" signal="…" output="…"`. */
  function IrNetBoxText(ip: string, keySet: string, key: string, port: string): string
  {
    "ip=\"" + (ip + ("\" dataset=\"" + (keySet + ("\" signal=\"" + (key + ("\" output=\"" + (port + "\"")))))))
  }

  /** The last `replace` of a plain IrNetBox press fills the key. */
  lemma IrNetBoxFill(ip: string, port: string, keySet: string, key: string)
    requires NoLt(ip) && NoLt(port) && NoLt(keySet) && NoLt(key)
    ensures Replace(Subst(IRNETBOX_IR_COMMAND, map[IPADDRESS := ip, KEYSET := keySet, PORT := port]), Arg(KEY), key) ==
            IrNetBoxText(ip, keySet, key, port)
  {
    var e3 := map[IPADDRESS := ip, KEYSET := keySet, PORT := port];
    assert EnvOk(e3);
    ReplaceSubst(IRNETBOX_IR_COMMAND, e3, KEY, key);
    IrNetBoxShape(e3[KEY := key]);
  }

  /** A hold suffix appended to the filled IrNetBox text, its placeholder filled, then the key. */
  lemma IrNetBoxFillHold(ip: string, port: string, keySet: string, key: string,
                         u: Tpl, lit: Plain, name: Name, value: string)
    requires NoLt(ip) && NoLt(port) && NoLt(keySet) && NoLt(key) && NoLt(value)
    requires u == Lit(lit, Hole(name, Lit("\"", End)))
    requires name != IPADDRESS && name != KEYSET && name != PORT && name != KEY
    ensures Replace(Replace(Subst(IRNETBOX_IR_COMMAND, map[IPADDRESS := ip, KEYSET := keySet, PORT := port]) + Render(u),
                            Arg(name), value), Arg(KEY), key) ==
            IrNetBoxText(ip, keySet, key, port) + (lit + (value + "\""))
  {
    var t := IRNETBOX_IR_COMMAND;
    var e3 := map[IPADDRESS := ip, KEYSET := keySet, PORT := port];
    var e4 := e3[name := value];
    var e5 := e4[KEY := key];
    assert EnvOk(e3);
    SuffixUnfilled(u, lit, name, e3);
    ReplaceAppended(t, u, e3, name, value);
    assert EnvOk(e4);
    ReplaceSubst(Append(t, u), e4, KEY, key);
    SubstAppend(t, u, e5);
    IrNetBoxShape(e5);
    SuffixShape(u, lit, name, e5);
  }

  /**
   * The IrNetBox text is `ip="<ip>" dataset="<keyset>" signal="<key>" output="<port>"`,
   * key and keyset verbatim; repeat mode appends ` repeats="<count>"` and duration mode
   * ` duration="<duration * 1000>"` (a Java `int` product); any other hold mode sends a
   * plain press.
   */
  lemma IrNetBoxExact(ip: string, port: int, v: View)
    requires v.IsIr() && NoLt(ip) && NoLt(v.keySet) && NoLt(v.key)
    ensures IrNetBoxCommand(ip, port, v) == Some(IrNetBoxText(ip, v.keySet, v.key, IntToString(port)) +
      if v.HoldView? && v.mode == REPEAT_MODE then " repeats=\"" + (IntToString(v.count) + "\"")
      else if v.HoldView? && v.mode == DURATION_MODE then " duration=\"" + (MillisText(v.duration) + "\"")
      else [])
  {
    var p := IntToString(port);
    ReplaceIrNetBox(ip, port, v.keySet);
    IntToStringNoLt(port);
    if v.HoldView? && v.mode == REPEAT_MODE {
      IntToStringNoLt(v.count);
      IrNetBoxFillHold(ip, p, v.keySet, v.key, IRNETBOX_REPEAT_COMMAND_APPEND, " repeats=\"", REPEAT, IntToString(v.count));
    } else if v.HoldView? && v.mode == DURATION_MODE {
      IntToStringNoLt(Wrap32(v.duration * 1000));
      IrNetBoxFillHold(ip, p, v.keySet, v.key, IRNETBOX_DURATION_COMMAND_APPEND, " duration=\"", DURATION,
                       MillisText(v.duration));
    } else {
      IrNetBoxFill(ip, p, v.keySet, v.key);
      assert IrNetBoxText(ip, v.keySet, v.key, p) + [] == IrNetBoxText(ip, v.keySet, v.key, p);
    }
  }

  /** The RedRat3 press text: `name="…" dataset="…" signal="…"`. */
  function RedRat3Text(deviceName: string, keySet: string, key: string): string
  {
    "name=\"" + (deviceName + ("\" dataset=\"" + (keySet + ("\" signal=\"" + (key + "\"")))))
  }

  lemma RedRat3Shape(env: map<string, string>)
    requires NAME in env && KEYSET in env && KEY in env
    ensures Subst(REDRAT3_IR_COMMAND, env) == RedRat3Text(env[NAME], env[KEYSET], env[KEY])
  {
    var t := REDRAT3_IR_COMMAND;
    assert Subst(t.next.next.next.next.next.next, env) == "\"";
    assert Subst(t.next.next.next.next, env) == "\" signal=\"" + (env[KEY] + "\"");
    assert Subst(t.next.next, env) == "\" dataset=\"" + (env[KEYSET] + ("\" signal=\"" + (env[KEY] + "\"")));
  }

  /**
   * The RedRat3 is addressed by its name: `name="<name>" dataset="<keyset>"
   * signal="<key>"`, where every press-and-hold, whatever its mode, count or
   * duration, sends the key with the suffix `_repeat35`.
   */
  lemma RedRat3Exact(deviceName: string, v: View)
    requires v.IsIr() && NoLt(deviceName) && NoLt(v.keySet) && NoLt(v.key)
    ensures RedRat3Command(deviceName, v) ==
      Some(RedRat3Text(deviceName, v.keySet, if v.HoldView? then v.key + REPEAT_COUNT_35 else v.key))
  {
    var t := REDRAT3_IR_COMMAND;
    var key := if v.HoldView? then v.key + REPEAT_COUNT_35 else v.key;
    var e2 := map[NAME := deviceName, KEYSET := v.keySet];
    ReplaceSubst(t, map[], NAME, deviceName);
    ReplaceSubst(t, map[NAME := deviceName], KEYSET, v.keySet);
    ReplaceSubst(t, e2, KEY, key);
    RedRat3Shape(e2[KEY := key]);
  }

  /** The iTach press query string: `host=…&ir_port_number=…&keyset=…&key=…`. */
  function PressKeyText(ip: string, port: string, keySet: string, key: string): string
  {
    "host=" + (ip + ("&ir_port_number=" + (port + ("&keyset=" + (keySet + ("&key=" + key))))))
  }

  lemma PressKeyShape(env: map<string, string>)
    requires ID in env && GC_PORT in env && KEYSET in env && KEY in env
    ensures Subst(PRESS_KEY_COMMAND, env) == PressKeyText(env[ID], env[GC_PORT], env[KEYSET], env[KEY])
  {
    var t := PRESS_KEY_COMMAND;
    assert Subst(t.next.next.next.next.next.next.next, env) == env[KEY];
    assert Subst(t.next.next.next.next.next, env) == env[KEYSET] + ("&key=" + env[KEY]);
    assert Subst(t.next.next.next, env) == env[GC_PORT] + ("&keyset=" + (env[KEYSET] + ("&key=" + env[KEY])));
    assert Subst(t.next, env) == env[ID] + ("&ir_port_number=" + (env[GC_PORT] + ("&keyset=" + (env[KEYSET] + ("&key=" + env[KEY])))));
  }

  /** The plain press query string of the iTach dispatcher. */
  function ITachText(ip: string, port: int, keySet: string, key: string): string
  {
    PressKeyText(ip, IntToString(port), ToUpper(keySet), ITachKey(key))
  }

  lemma ITachBase(ip: string, port: int, keySet: string, key: string)
    requires NoLt(ip) && NoLt(keySet) && NoLt(key)
    ensures ITachBaseText(ip, port, keySet, key) ==
            Subst(PRESS_KEY_COMMAND, map[ID := ip, GC_PORT := IntToString(port), KEYSET := ToUpper(keySet),
                                         KEY := ITachKey(key)])
    ensures NoLt(ITachKey(key)) && NoLt(ToUpper(keySet))
  {
    var t := PRESS_KEY_COMMAND;
    IntToStringNoLt(port);
    ToUpperKeepsOut(keySet, '<');
    ReplaceKeepsOut(key, " ", "_", '<');
    ToUpperKeepsOut(Replace(key, " ", "_"), '<');
    ReplaceSubst(t, map[], ID, ip);
    ReplaceSubst(t, map[ID := ip], GC_PORT, IntToString(port));
    ReplaceSubst(t, map[ID := ip, GC_PORT := IntToString(port)], KEYSET, ToUpper(keySet));
    ReplaceSubst(t, map[ID := ip, GC_PORT := IntToString(port), KEYSET := ToUpper(keySet)], KEY, ITachKey(key));
  }

  /** An iTach hold suffix appended to the filled query string, then its placeholder filled. */
  lemma ITachFillHold(ip: string, port: string, keySet: string, key: string,
                      u: Tpl, lit: Plain, name: Name, value: string)
    requires NoLt(ip) && NoLt(port) && NoLt(keySet) && NoLt(key) && NoLt(value)
    requires u == Lit(lit, Hole(name, End))
    requires name != ID && name != GC_PORT && name != KEYSET && name != KEY
    ensures Replace(Subst(PRESS_KEY_COMMAND, map[ID := ip, GC_PORT := port, KEYSET := keySet, KEY := key]) +
                    Render(u), Arg(name), value) ==
            PressKeyText(ip, port, keySet, key) + (lit + value)
  {
    var t := PRESS_KEY_COMMAND;
    var e4 := map[ID := ip, GC_PORT := port, KEYSET := keySet, KEY := key];
    assert EnvOk(e4);
    assert Unfilled(u, e4);
    ReplaceAppended(t, u, e4, name, value);
    SubstAppend(t, u, e4[name := value]);
    PressKeyShape(e4[name := value]);
    assert Subst(u.next, e4[name := value]) == value + "";
  }

  /**
   * The iTach query string `host=<ip>&ir_port_number=<port>&keyset=<KEYSET>&key=<KEY>`,
   * keyset upper-cased and key with spaces turned into '_' and upper-cased;
   * repeat mode appends `&repeats=<count>`, duration mode `&duration=<duration * 1000>`.
   */
  lemma ITachExact(ip: string, port: int, v: View)
    requires v.IsIr() && NoLt(ip) && NoLt(v.keySet) && NoLt(v.key)
    ensures ITachCommand(ip, port, v) == Some(ITachText(ip, port, v.keySet, v.key) +
      if v.HoldView? && v.mode == REPEAT_MODE then "&repeats=" + IntToString(v.count)
      else if v.HoldView? && v.mode == DURATION_MODE then "&duration=" + MillisText(v.duration)
      else [])
  {
    if v.HoldView? && v.mode == REPEAT_MODE {
      ITachRepeats(ip, port, v);
    } else if v.HoldView? && v.mode == DURATION_MODE {
      ITachDuration(ip, port, v);
    } else {
      ITachBase(ip, port, v.keySet, v.key);
      PressKeyShape(map[ID := ip, GC_PORT := IntToString(port), KEYSET := ToUpper(v.keySet), KEY := ITachKey(v.key)]);
      assert ITachText(ip, port, v.keySet, v.key) + [] == ITachText(ip, port, v.keySet, v.key);
    }
  }

  lemma ITachRepeats(ip: string, port: int, v: View)
    requires v.HoldView? && v.mode == REPEAT_MODE && NoLt(ip) && NoLt(v.keySet) && NoLt(v.key)
    ensures ITachCommand(ip, port, v) == Some(ITachText(ip, port, v.keySet, v.key) + ("&repeats=" + IntToString(v.count)))
  {
    ITachBase(ip, port, v.keySet, v.key);
    IntToStringNoLt(port);
    IntToStringNoLt(v.count);
    ITachFillHold(ip, IntToString(port), ToUpper(v.keySet), ITachKey(v.key),
                  PRESS_KEY_REPEATS_COMMAND, "&repeats=", REPEATS, IntToString(v.count));
  }

  lemma ITachDuration(ip: string, port: int, v: View)
    requires v.HoldView? && v.mode == DURATION_MODE && NoLt(ip) && NoLt(v.keySet) && NoLt(v.key)
    ensures ITachCommand(ip, port, v) == Some(ITachText(ip, port, v.keySet, v.key) + ("&duration=" + MillisText(v.duration)))
  {
    ITachBase(ip, port, v.keySet, v.key);
    IntToStringNoLt(port);
    IntToStringNoLt(Wrap32(v.duration * 1000));
    ITachFillHold(ip, IntToString(port), ToUpper(v.keySet), ITachKey(v.key),
                  PRESS_KEY_DURATION_COMMAND, "&duration=", DURATION, MillisText(v.duration));
  }

  /** The sendir text with `<module>` and possibly `<repeat>` filled and the other placeholders literal. */
  function SendText(deviceModule: string, repeat: string): string
  {
    "sendir," + (deviceModule + (":" + (Arg(GC_PORT) + ("," + (Arg(ID) + ("," + (Arg(FREQUENCY) + ("," + (repeat + ("," + Arg(OFFSET)))))))))))
  }

  lemma SendShape(env: map<string, string>)
    requires MODULE in env && GC_PORT !in env && ID !in env && FREQUENCY !in env && OFFSET !in env
    ensures Subst(SEND_COMMAND, env) == SendText(env[MODULE], if REPEAT in env then env[REPEAT] else Arg(REPEAT))
  {
    var t := SEND_COMMAND;
    var r := if REPEAT in env then env[REPEAT] else Arg(REPEAT);
    assert Subst(t.next.next.next.next.next.next.next.next.next.next.next, env) == Arg(OFFSET);
    assert Subst(t.next.next.next.next.next.next.next.next.next, env) == r + ("," + Arg(OFFSET));
    assert Subst(t.next.next.next.next.next.next.next, env) == Arg(FREQUENCY) + ("," + (r + ("," + Arg(OFFSET))));
    assert Subst(t.next.next.next.next.next, env) ==
      Arg(ID) + ("," + (Arg(FREQUENCY) + ("," + (r + ("," + Arg(OFFSET))))));
    assert Subst(t.next.next.next, env) ==
      Arg(GC_PORT) + ("," + (Arg(ID) + ("," + (Arg(FREQUENCY) + ("," + (r + ("," + Arg(OFFSET))))))));
    assert Subst(t.next, env) == env[MODULE] + (":" + Subst(t.next.next.next, env));
  }

  /** The GC100's `replace` of `<key>` on the sendir text finds nothing. */
  lemma GC100Fill(deviceModule: string, key: string)
    requires NoLt(deviceModule)
    ensures Replace(Subst(SEND_COMMAND, map[MODULE := deviceModule]), Arg(KEY), key) == SendText(deviceModule, Arg(REPEAT))
  {
    var e1 := map[MODULE := deviceModule];
    assert EnvOk(e1);
    SendLacksKey();
    ReplaceLacking(SEND_COMMAND, e1, KEY, key);
    SendShape(e1);
  }

  /** A hold suffix appended to the sendir text, every copy of its placeholder filled, then `<key>` (absent). */
  lemma GC100FillHold(deviceModule: string, key: string, u: Tpl, lit: Plain, name: Name, value: string)
    requires NoLt(deviceModule) && NoLt(value)
    requires u == Lit(lit, Hole(name, Lit("\"", End))) && (name == REPEAT || name == DURATION)
    ensures Replace(Replace(Subst(SEND_COMMAND, map[MODULE := deviceModule]) + Render(u), Arg(name), value),
                    Arg(KEY), key) ==
            SendText(deviceModule, if name == REPEAT then value else Arg(REPEAT)) + (lit + (value + "\""))
  {
    var t := SEND_COMMAND;
    var e1 := map[MODULE := deviceModule];
    var e2 := e1[name := value];
    var tu := Append(t, u);
    assert EnvOk(e1);
    SuffixUnfilled(u, lit, name, e1);
    assert Replace(Subst(t, e1) + Render(u), Arg(name), value) == Subst(tu, e2) by {
      ReplaceAppended(t, u, e1, name, value);
    }
    assert Replace(Subst(tu, e2), Arg(KEY), key) == Subst(tu, e2) by {
      SendLacksKey();
      LacksAppend(t, u, KEY);
      assert EnvOk(e2);
      ReplaceLacking(tu, e2, KEY, key);
    }
    assert Subst(tu, e2) == SendText(deviceModule, if name == REPEAT then value else Arg(REPEAT)) + (lit + (value + "\"")) by {
      SubstAppend(t, u, e2);
      SendShape(e2);
      SuffixShape(u, lit, name, e2);
    }
  }

  /**
   * The GC100 sends `sendir,<module>:<ir_port_number>,<id>,<frequency>,<repeat>,<offset>`
   * with only the module filled (`SendText`); the key never appears. Repeat mode appends
   * ` repeats="<repeat>"` and then fills every `<repeat>` with the count,
   * the one inside the sendir template included; duration mode appends
   * ` duration="<duration * 1000>"`.
   */
  lemma GC100Exact(deviceModule: string, v: View)
    requires v.IsIr() && NoLt(deviceModule)
    ensures GC100Command(deviceModule, v) == Some(
      if v.HoldView? && v.mode == REPEAT_MODE then
        SendText(deviceModule, IntToString(v.count)) + (" repeats=\"" + (IntToString(v.count) + "\""))
      else if v.HoldView? && v.mode == DURATION_MODE then
        SendText(deviceModule, Arg(REPEAT)) + (" duration=\"" + (MillisText(v.duration) + "\""))
      else SendText(deviceModule, Arg(REPEAT)))
  {
    ReplaceSubst(SEND_COMMAND, map[], MODULE, deviceModule);
    if v.HoldView? && v.mode == REPEAT_MODE {
      IntToStringNoLt(v.count);
      GC100FillHold(deviceModule, v.key, IRNETBOX_REPEAT_COMMAND_APPEND, " repeats=\"", REPEAT, IntToString(v.count));
    } else if v.HoldView? && v.mode == DURATION_MODE {
      IntToStringNoLt(Wrap32(v.duration * 1000));
      GC100FillHold(deviceModule, v.key, IRNETBOX_DURATION_COMMAND_APPEND, " duration=\"", DURATION,
                    MillisText(v.duration));
    } else {
      GC100Fill(deviceModule, v.key);
    }
  }
}
