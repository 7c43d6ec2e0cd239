# cats-ir-ms command layer, in Dafny

A model of the infrared (IR) remote-control layer of the CATS IR micro-service.

The service drives IR blasters on behalf of REST clients:
- RedRat IrNetBox Pro and RedRat3 units, reached through a RedRat hub over telnet;
- Global Caché iTach and GC100 units, reached through an HTTP dispatcher.

A client names a rack slot (or a device and port) and asks for key presses, holds, key sequences, tuning or text entry. This is what the model covers:

| file | what it models |
|---|---|
| `wrappers.dfy` | `Option`, `Result` and the Java exceptions as values (`Exn`) |
| `java_text.dfy` | the `java.lang.String`/`Integer` operations the code relies on: `replace`, `split`, `trim`, `toUpperCase`, `equalsIgnoreCase`, `Integer.parseInt`, `Integer.toString`, `String.hashCode` |
| `commands.dfy` | the `CatsCommand` composite and its leaves, including the stateful `hasNext`/`next` cursor and its pre-order pass |
| `templates.dfy`, `translators.dfy` | the wire templates and the four per-family translators |
| `oracle.dfy` | the outside world as scripts: communicators, HTTP bodies, sleeps |
| `ports.dfy` | draining a command tree through a RedRat or Global Caché port, with the telnet retry loop and the pool release |
| `remote.dfy`, `shorthand.dfy` | `LocalRemote` and `CommandProcessor` |
| `hardware.dfy`, `devices.dfy` | `IRHardwareEnum`, the device classes and `LocalIRDeviceManager` |
| `telnet.dfy`, `hub.dfy` | the telnet line framing and retry loops; `HubConnectionPool` and `LocalIRCommunicatorManager` |
| `hub_health.dfy`, `health_check.dfy`, `health_status.dfy`, `dependencies.dfy` | hub health parsing, `HubHealthCheck`, `HealthStatusBean` and `DependencyHealthCheck` |
| `config.dfy`, `slots.dfy`, `processor.dfy` | `IRConfiguration` and its host arithmetic, slot-to-port mappings, and `RemoteProcessor` |
| `resources.dfy` | request validation and the key-sequence loops of the slot controller (`IRResource`) and the device controller (`IRDeviceResource`) |

How the Java code is represented:
- Objects whose fields the code updates are Dafny classes with `modifies` frames.
- Pure computations are functions.
- Loops are methods proved against a recursive function that describes them.
- Lemmas relate those functions to each other and to what the code promises.
- A Java exception is an `Err` value. A Java `null` is `None`, or a nullable reference where the object graph matters.

The hub connection appears in three scripted forms, one for each group of call sites:
- `Oracle.Env` stands for the communicators that the device ports borrow to send IR commands (`RedRatDevicePort`, `IrNetBoxProPort`, `RedRat3Port`), and for the HTTP dispatch of `GCDevicePort`. It scripts only what those ports see: whether a communicator is handed out, whether `connect` and `sendCommand` succeed, and the response bodies.
- `Hub.Communicator` is `RedRatHubCommunicator` over `TelnetConnection`, as `HubConnectionPool` makes, activates and lends it. `HubHealthCheck` and `IrNetBoxPro.init` use it. Its script is the hub's lines, framed by `MeasuredTelnetUtil.readUntil`, plus whether connecting and reading succeed.
- `Telnet.Connection` is a `TelnetConnection` driven by the bounded `TelnetUtil` retry loops for `connect` and `sendCommand`.

## Model

| member | source | states |
|---|---|---|
| Commands.CatsCommand.constructor | src/main/java/com/cats/ir/commands/CatsCommand.java:72-76 | a new command has an empty name, its own list holds exactly itself, `activeSize` is 1, both cursors are 0, and its cursor model is idle |
| Commands.CatsCommand.Named | src/main/java/com/cats/ir/commands/CatsCommand.java:78-81 | as the plain constructor, with the given name |
| Commands.CatsCommand.PressKey | src/main/java/com/cats/ir/commands/PressKeyCommand.java:29-31 | the name is "PressKey", the remote command and keyset are the arguments, and the node is a one-node IR leaf with `activeSize` 1 |
| Commands.CatsCommand.PressKeyAndHold | src/main/java/com/cats/ir/commands/PressKeyAndHoldCommand.java:52-65 | the name is "PressKeyAndHold"; a null mode keeps REPEAT_MODE with count 0; mode 1 stores the clamped amount as the count, mode 2 as the duration; any other mode is stored with neither |
| Commands.CatsCommand.Delay | src/main/java/com/cats/ir/commands/DelayCommand.java:44-48 | the name is "Delay Command" and the delay is the argument clamped at 0 |
| Commands.CatsCommand.ToString | src/main/java/com/cats/ir/commands/CatsCommand.java:175-177 | `toString()` is the name |
| Commands.CatsCommand.SetName | src/main/java/com/cats/ir/commands/CatsCommand.java:87-89 | the name becomes the argument and the tree stays valid |
| Commands.CatsCommand.SetRemoteCommand | src/main/java/com/cats/ir/commands/IrCommand.java:54-56 | the remote command becomes the argument; the tree stays valid |
| Commands.CatsCommand.SetIrKeySet | src/main/java/com/cats/ir/commands/IrCommand.java:62-64 | the keyset becomes the argument; the tree stays valid |
| Commands.CatsCommand.SetCount | src/main/java/com/cats/ir/commands/PressKeyAndHoldCommand.java:71-76 | the count becomes the argument, or 0 when it is negative |
| Commands.CatsCommand.SetDuration | src/main/java/com/cats/ir/commands/PressKeyAndHoldCommand.java:82-87 | the duration becomes the argument, or 0 when it is negative |
| Commands.CatsCommand.SetMode | src/main/java/com/cats/ir/commands/PressKeyAndHoldCommand.java:93-95 | the mode becomes the argument |
| Commands.CatsCommand.SetDelay | src/main/java/com/cats/ir/commands/DelayCommand.java:54-59 | the delay becomes the argument, or 0 when it is negative |
| Commands.Clamp | src/main/java/com/cats/ir/commands/DelayCommand.java:54-59 | the clamp the setters share: the value itself when non-negative, otherwise 0 |
| Commands.CatsCommand.Add | src/main/java/com/cats/ir/commands/CatsCommand.java:96-110 | null throws IllegalArgumentException and changes nothing; otherwise the command is appended last, `activeSize` grows by the child's `activeSize` (by 1 when the child's list is empty), `this` is returned, and the cursor model gains the child's subtree |
| Commands.CatsCommand.HasNext | src/main/java/com/cats/ir/commands/CatsCommand.java:113-129 | one step of the `hasNext` counter: true and counter + 1 while below `activeSize`, otherwise false and the counter reset to 0 |
| Commands.CounterRunFromZero | src/main/java/com/cats/ir/commands/CatsCommand.java:113-129 | from a counter at or below `activeSize`, `hasNext` answers true `activeSize - counter` times in a row and then false |
| Commands.CatsCommand.Next | src/main/java/com/cats/ir/commands/CatsCommand.java:132-168 | the new cursor state is one `Step` of the old one; while the pass is not over it returns the first pending command and drops it, at the end of the pass it returns null and resets the cursors the Java code resets; nodes outside the tree are untouched |
| Commands.CatsCommand.NextAtCursor | src/main/java/com/cats/ir/commands/CatsCommand.java:140-163 | with the cursor on a list entry: that entry when its list is empty, else what the entry's own `next()` gives, else on to the following entry |
| Commands.CatsCommand.Remove | src/main/java/com/cats/ir/commands/CatsCommand.java:171-173 | the entry at the cursor index is deleted and the rest keep their order; an index past the list throws IndexOutOfBoundsException and changes nothing |
| Commands.StepSpec | src/main/java/com/cats/ir/commands/CatsCommand.java:132-168 | one `next()` returns the first pending command and leaves the rest pending, or, with nothing pending, returns null and ends the pass |
| Commands.IdlePending | src/main/java/com/cats/ir/commands/CatsCommand.java:72-76 | on a tree no pass has touched, the pending commands are all nodes in pre-order, groups included |
| Commands.DrainPending | src/main/java/com/cats/ir/commands/CatsCommand.java:132-168 | `n` calls within a pass return exactly the first `n` pending commands |
| Commands.FullPass | src/main/java/com/cats/ir/commands/CatsCommand.java:132-168 | from a fresh tree, `next()` returns the node itself, then every node in pre-order with children in insertion order, then null, and leaves the tree as it found it |
| Commands.HasNextPasses | src/main/java/com/cats/ir/commands/CatsCommand.java:113-168 | a `while (hasNext()) next();` loop sees every node in pre-order but not the closing null, so the following pass starts with null and repeats the list shifted by one |
| Commands.PreOrderAdd | src/main/java/com/cats/ir/commands/CatsCommand.java:96-110 | after `add`, the pre-order is the old pre-order followed by the child's whole subtree |
| Commands.IdleAdd | src/main/java/com/cats/ir/commands/CatsCommand.java:96-110 | adding an untouched child to an untouched tree leaves it untouched |
| Commands.CatsCommand.ModelReal | src/main/java/com/cats/ir/commands/CatsCommand.java:48-62 | every node the cursor model mentions is an actual command of the tree |
| Templates.ReplaceSubst | src/main/java/com/cats/ir/redrat/RedRatCommands.java:39-43 | a `replace("<name>", v)` on a partly filled command template fills every copy of that placeholder with `v` and changes nothing else, as long as `v` holds no '<' |
| Templates.ReplaceLacking | src/main/java/com/cats/ir/gc/GCCommands.java:42-43 | a `replace` of a placeholder the template does not hold leaves the text as it is, whatever the replacement |
| Templates.SubstUnfilled | src/main/java/com/cats/ir/gc/GCCommands.java:42-43 | a template none of whose placeholders is filled is sent as its literal text, placeholders included |
| Translators.IrNetBoxCommand | src/main/java/com/cats/ir/redrat/IrNetBoxProPort.java:47-74 | a text exactly for IR commands (press-key and press-and-hold); null for any other command |
| Translators.IrNetBoxExact | src/main/java/com/cats/ir/redrat/IrNetBoxProPort.java:50-70 | the text is `ip="<ip>" dataset="<keyset>" signal="<key>" output="<port>"` with key and keyset verbatim; repeat mode appends ` repeats="<count>"`, duration mode ` duration="<duration*1000>"`, any other hold mode nothing |
| Translators.RedRat3Command | src/main/java/com/cats/ir/redrat/RedRat3Port.java:45-60 | a text exactly for IR commands; null for any other command |
| Translators.RedRat3Exact | src/main/java/com/cats/ir/redrat/RedRat3Port.java:50-57 | the text is `name="<deviceName>" dataset="<keyset>" signal="<key>"`; every press-and-hold, whatever its mode, count or duration, sends the key suffixed with "_repeat35" |
| Translators.ITachCommand | src/main/java/com/cats/ir/gc/itach/iTachPort.java:51-75 | a text exactly for IR commands; null for any other command |
| Translators.ITachExact | src/main/java/com/cats/ir/gc/itach/iTachPort.java:51-108 | the text is `host=<ip>&ir_port_number=<port>&keyset=<KEYSET>&key=<KEY>` with the keyset upper-cased and the key's spaces turned into '_' then upper-cased; repeat mode appends `&repeats=<count>`, duration mode `&duration=<duration*1000>` |
| Translators.GC100Command | src/main/java/com/cats/ir/gc/gc100/GC100Port.java:48-72 | a text exactly for IR commands; null for any other command |
| Translators.GC100Exact | src/main/java/com/cats/ir/gc/gc100/GC100Port.java:53-68 | the text is the sendir template with only `<module>` filled, so the key never appears; repeat mode appends ` repeats="<repeat>"` and then fills every `<repeat>`, the template's own included, with the count; duration mode appends ` duration="<duration*1000>"` |
| Translators.SendLacksKey | src/main/java/com/cats/ir/gc/GCCommands.java:42-43 | the sendir template has no `<key>` placeholder |
| Translators.SuffixUnfilled | src/main/java/com/cats/ir/redrat/RedRatCommands.java:42-43 | each hold suffix holds one placeholder and no `<key>` |
| Hardware.ValueOf | src/main/java/com/cats/ir/IRHardwareEnum.java:22-28 | the enum's `valueOf`: a success is the constant whose name is exactly the argument; anything else is IllegalArgumentException |
| Hardware.GetByValue | src/main/java/com/cats/ir/IRHardwareEnum.java:38-40 | a null scheme is a NullPointerException; otherwise the constant named by the upper-cased scheme with '-' turned into '_' |
| Hardware.SchemeRoundTrip | src/main/java/com/cats/ir/IRHardwareEnum.java:22-40 | looking up each constant's own scheme gives that constant back |
| Hardware.ValueOfName | src/main/java/com/cats/ir/IRHardwareEnum.java:22-28 | `valueOf` of each constant's name gives that constant |
| Hardware.SchemeNormalizes | src/main/java/com/cats/ir/IRHardwareEnum.java:22-40 | upper-casing a constant's scheme and replacing '-' with '_' gives its name |
| Hardware.NamesDistinct | src/main/java/com/cats/ir/IRHardwareEnum.java:22-28 | no two constants share a name |
| Hardware.GetByValueSpec | src/main/java/com/cats/ir/IRHardwareEnum.java:38-40 | a scheme finds a constant exactly when its normalized form is that constant's name |
| Hardware.ValidateSpec | src/main/java/com/cats/ir/IRHardwareEnum.java:49-61 | `validate` of a non-null scheme never throws, and is true exactly when the normalized scheme names some constant |
| Hardware.GetByValueIgnoresCase | src/main/java/com/cats/ir/IRHardwareEnum.java:38-40 | the lookup ignores the case of the scheme |
| Telnet.Absorb | src/main/java/com/cats/utils/MeasuredTelnetUtil.java:57-100 | one line read: "OK" ends the read with "OK"; otherwise a read that goes on has appended the line, with or without a newline, to what was read so far |
| Telnet.Frame | src/main/java/com/cats/utils/MeasuredTelnetUtil.java:48-108 | the lines a read consumes are at most those available, at least one when any is available, and the read has an answer exactly when it consumed a line or started with text |
| Telnet.ReadUntil | src/main/java/com/cats/utils/MeasuredTelnetUtil.java:48-108 | a missing input stream is an IOException; otherwise the answer and the lines consumed are those of the line-by-line reading rules |
| Telnet.PlainLinesConcatenate | src/main/java/com/cats/utils/MeasuredTelnetUtil.java:57-100 | with a pattern other than "LINE", lines without braces or "OK" are all read and concatenated without separators |
| Telnet.LinePatternReadsOne | src/main/java/com/cats/utils/MeasuredTelnetUtil.java:57-100 | with the "LINE" pattern, a first line without '{' is the whole answer |
| Telnet.BlockFrames | src/main/java/com/cats/utils/MeasuredTelnetUtil.java:57-100 | inside a JSON-like block each inner line is kept with its newline and the line holding '}' closes the answer |
| Telnet.JsonAnswer | src/main/java/com/cats/utils/MeasuredTelnetUtil.java:57-100 | a first line holding '{' opens a block that is read up to and including the closing '}' line, and nothing after it |
| Telnet.OkOverrides | src/main/java/com/cats/utils/MeasuredTelnetUtil.java:57-100 | an "OK" line ends the read with the answer "OK", whatever was read before it |
| Telnet.Connection.constructor | src/main/java/com/cats/utils/TelnetConnection.java:67-75 | a connection starts with no connect or command consumed, no close and an empty trace |
| Telnet.Connection.Connect | src/main/java/com/cats/utils/TelnetConnection.java:88-113 | one connect attempt: the next scripted outcome is consumed and returned |
| Telnet.Connection.SendCommand | src/main/java/com/cats/utils/TelnetConnection.java:179-194 | one command: the next scripted reply is consumed and the command is recorded as sent |
| Telnet.Connection.CloseConnection | src/main/java/com/cats/utils/TelnetConnection.java:115-144 | a close is counted and nothing else changes |
| Telnet.ConnectLoop | src/main/java/com/cats/utils/TelnetUtil.java:43-71 | the connect retries consume no command reply and close nothing |
| Telnet.ConnectTelnet | src/main/java/com/cats/utils/TelnetUtil.java:43-71 | a null connection is a failure; otherwise the result and the new connection state are those of the retry loop |
| Telnet.ConnectAnswers | src/main/java/com/cats/utils/TelnetUtil.java:43-71 | when the first k attempts are refused and attempt k answers within the limit, the result is that answer, after k waits of CONNECT_WAIT |
| Telnet.ConnectGivesUp | src/main/java/com/cats/utils/TelnetUtil.java:43-71 | when every remaining attempt is refused, the result is false after one wait per attempt |
| Telnet.SendTelnetCommand | src/main/java/com/cats/utils/TelnetUtil.java:81-112 | a null connection or command gives the null-arguments error text and sends nothing; otherwise result and state are those of the send-retry loop |
| Telnet.SendFirstAnswer | src/main/java/com/cats/utils/TelnetUtil.java:81-112 | a command answered at once returns that answer after sending the command once |
| Telnet.SendGivesUp | src/main/java/com/cats/utils/TelnetUtil.java:81-112 | two failed sends give the error prefix followed by both messages, after closing the connection twice |
| Telnet.SendRecovers | src/main/java/com/cats/utils/TelnetUtil.java:81-112 | a failed send followed by an answer returns that answer, after one close |
| Hub.Communicator.constructor | src/main/java/com/cats/ir/redrathub/RedRatHubCommunicator.java:44-48 | a communicator keeps its prompt and instance id, starts unconnected with transaction id 0, and has sent nothing |
| Hub.Communicator.Connect | src/main/java/com/cats/utils/TelnetConnection.java:88-113 | an open session stays open and gives true; otherwise the result is whether the hub is reachable, and an unreachable hub leaves the session closed rather than throwing |
| Hub.Communicator.SendCommand | src/main/java/com/cats/ir/redrathub/RedRatHubCommunicator.java:55-66 | unconnected: null and nothing sent; connected: the command is sent, and either the read fails with an IOException that leaves the session open and the lines unread, or the answer is the framed read, the lines read are consumed, and a null answer leaves the communicator disconnected |
| Hub.Communicator.Send | src/main/java/com/cats/utils/TelnetConnection.java:164-166 | the same as `sendCommand(command, prompt)`, failed read included, with the communicator's own default prompt |
| Hub.Maker.constructor | src/main/java/com/cats/ir/redrathub/HubConnectionPool.java:158-162 | the factory starts at instance 0 and keeps the hub's reachability, whether its reads fail, and its script |
| Hub.Maker.Make | src/main/java/com/cats/ir/redrathub/HubConnectionPool.java:165-173 | each new communicator is fresh, unconnected, has the REDRAT prompt, carries the next instance number, and reaches and reads the hub as the factory says |
| Hub.Maker.Activate | src/main/java/com/cats/ir/redrathub/HubConnectionPool.java:176-189 | a non-null communicator is connected if it can be, a failure is swallowed, and nothing it has sent or read changes |
| Hub.Maker.Passivate | src/main/java/com/cats/ir/redrathub/HubConnectionPool.java:192-195 | passivation changes nothing the factory counts |
| Hub.HubConnectionPool.constructor | src/main/java/com/cats/ir/redrathub/HubConnectionPool.java:61-68 | a pool starts with no active handle and transaction 0, and its size, min idle and max total are the configured pool size, with the fixed maximum wait |
| Hub.HubConnectionPool.Init | src/main/java/com/cats/ir/redrathub/HubConnectionPool.java:73-84 | the pool is rebuilt empty with the configured size as min idle and max total; the active and transaction counters carry on |
| Hub.HubConnectionPool.ReadPoolSize | src/main/java/com/cats/ir/redrathub/HubConnectionPool.java:86-103 | the pool size becomes the configured size, or the default when it is missing or not a number |
| Hub.HubConnectionPool.GetObj | src/main/java/com/cats/ir/redrathub/HubConnectionPool.java:105-129 | a handle is lent exactly when one is idle or fewer than max total exist: the first idle one, else a fresh one from the factory, activated before it is lent; otherwise nothing changes |
| Hub.HubConnectionPool.GetConnection | src/main/java/com/cats/ir/redrathub/HubConnectionPool.java:105-129 | each call takes the next transaction id; a lent communicator is counted active, is stamped with that id and leaves one handle fewer to lend; an exhausted pool gives null and leaves the idle handles and count alone |
| Hub.HubConnectionPool.ReleaseConnection | src/main/java/com/cats/ir/redrathub/HubConnectionPool.java:131-139 | null is ignored; a communicator goes back to the end of the idle handles and the active count drops by one |
| Hub.PoolSize | src/main/java/com/cats/ir/redrathub/HubConnectionPool.java:86-103 | a missing or unparsable size gives DEFAULT_POOL_SIZE; a parsable one gives its value |
| Hub.PoolSizeConfigured | src/main/java/com/cats/ir/redrathub/HubConnectionPool.java:86-103 | any 32-bit size written in decimal is read back as that size |
| Hub.CommunicatorManager.constructor | src/main/java/com/cats/ir/manager/LocalIRCommunicatorManager.java:49-52 | before `init` there is no pool |
| Hub.CommunicatorManager.Init | src/main/java/com/cats/ir/manager/LocalIRCommunicatorManager.java:49-52 | a port that is not a number is a NumberFormatException and no pool is built; otherwise a fresh, idle pool for that host, port and configured size |
| Hub.CommunicatorManager.GetCommunicator | src/main/java/com/cats/ir/manager/LocalIRCommunicatorManager.java:55-78 | Global Caché devices get null and the pool is untouched; hub devices get a pooled communicator as `getConnection` lends it, which is connected with a failing read exactly when the pool's next handle is, or a NullPointerException before `init` |
| Hub.CommunicatorManager.Passivate | src/main/java/com/cats/ir/manager/LocalIRCommunicatorManager.java:81-83 | the communicator goes back to the pool as `releaseConnection` does; before `init` it is a NullPointerException |
| Hub.BorrowAndReturn | src/main/java/com/cats/ir/manager/LocalIRCommunicatorManager.java:55-83 | borrowing a communicator and handing it back leaves the active count as it was, and a hub device uses up one transaction id |
| Ports.Translate | src/main/java/com/cats/ir/redrat/IrNetBoxProPort.java:47-74 | each port family's translation gives a text exactly for IR commands (see the Translators rows for the texts) |
| Ports.PressKeyUrl | src/main/java/com/cats/ir/gc/GCDevicePort.java:130-136 | the dispatcher URL starts with the API base followed by "/press_key" and ends with "?" and the device command |
| Ports.TelnetGivesUp | src/main/java/com/cats/ir/redrat/RedRatDevicePort.java:175-217 | when every remaining transmission throws, the loop sends the command once per remaining attempt, waits after each, and returns the empty string |
| Ports.TelnetAnswers | src/main/java/com/cats/ir/redrat/RedRatDevicePort.java:175-217 | with k failed transmissions and room for another, the command is sent k+1 times with a wait after each failure, and the answer is the (k+1)-th reply |
| Ports.TelnetKeepsPool | src/main/java/com/cats/ir/redrat/RedRatDevicePort.java:175-217 | the retry loop itself neither takes nor returns a communicator |
| Ports.SendTelnetCommand | src/main/java/com/cats/ir/redrat/RedRatDevicePort.java:175-217 | the answer is that of the retry loop, and afterwards the communicator is back in the pool |
| Ports.HubVerdict | src/main/java/com/cats/ir/redrat/RedRatDevicePort.java:125-148 | the press succeeds exactly when the hub answered "OK", and then it is true; an answer containing "Failed to find signal " is an IllegalArgumentException |
| Ports.HubDispatchReleases | src/main/java/com/cats/ir/redrat/RedRatDevicePort.java:125-148 | every communicator a hub dispatch takes is given back, on every path |
| Ports.HubSend | src/main/java/com/cats/ir/redrat/RedRatDevicePort.java:125-148 | a hub dispatch takes a communicator, runs the telnet loop and judges its answer |
| Ports.ConcatIsJoin | src/main/java/com/cats/utils/GCDispatcherUtil.java:62-72 | the body read is the lines joined with nothing between them |
| Ports.ReadBody | src/main/java/com/cats/utils/GCDispatcherUtil.java:67-69 | the `readLine` loop builds the concatenation of every line |
| Ports.GcVerdict | src/main/java/com/cats/utils/GCDispatcherUtil.java:44-100 | an IOException is false; a body containing the expected token is true; otherwise a body mentioning "Error" is an IllegalArgumentException, and any other body an IRFailureException |
| Ports.GcSend | src/main/java/com/cats/utils/GCDispatcherUtil.java:44-60 | a Global Caché press posts to the press-key URL and judges the body it reads |
| Ports.Act | src/main/java/com/cats/ir/redrat/RedRatDevicePort.java:81-106 | a delay node becomes a wait of its delay, an IR node a dispatch of that node, and every other node (groups included) nothing |
| Ports.Run | src/main/java/com/cats/ir/redrat/RedRatDevicePort.java:81-112 | a run stops at the first exception; it makes at most one `next()` call per action, and exactly one per action when it succeeds |
| Ports.PlanIsDrain | src/main/java/com/cats/ir/redrat/RedRatDevicePort.java:81-107 | the actions the loop performs are those of the nodes the cursor hands out, in order |
| Ports.SendCommand | src/main/java/com/cats/ir/redrat/RedRatDevicePort.java:73-113 | a null command is an IRFailureException and touches nothing; otherwise the tree is drained by the `hasNext()`/`next()` loop, the result is that of the last dispatch (true when there is none), and the first exception ends the loop |
| Ports.DrainHead | src/main/java/com/cats/ir/commands/CatsCommand.java:132-168 | the first remaining action is that of the node `next()` returns, and the rest are those of the nodes after it |
| Ports.HubRunNeverFalse | src/main/java/com/cats/ir/redrat/RedRatDevicePort.java:125-148 | a RedRat port never answers false: the result is true or an exception |
| Ports.RunReleases | src/main/java/com/cats/ir/redrat/RedRatDevicePort.java:73-113 | however a run ends, as many hub communicators are out as before it |
| Ports.PerformReleases | src/main/java/com/cats/ir/redrat/RedRatDevicePort.java:81-106 | one action leaves as many hub communicators out as before it |
| Ports.HubDispatchSteady | src/main/java/com/cats/ir/redrat/RedRatDevicePort.java:125-148 | on a hub that answers at once, a successful dispatch sends exactly its command |
| Ports.PerformSteady | src/main/java/com/cats/ir/redrat/RedRatDevicePort.java:81-106 | on a hub or dispatcher without IOExceptions, a successful action leaves exactly its own trail |
| Ports.RunTrace | src/main/java/com/cats/ir/redrat/RedRatDevicePort.java:73-113 | a run that succeeds without IOExceptions sends exactly the translations of the IR leaves, in order, with the sleeps of the delays between them |
| Devices.Numbers | src/main/java/com/cats/ir/gc/itach/iTach.java:54-62 | the port list a device's `init` builds holds n entries, the i-th numbered i+1 |
| Devices.NumbersHold | src/main/java/com/cats/ir/redrat/IrNetBoxPro.java:103-124 | a port list built for n ports holds exactly the numbers 1 to n |
| Devices.AddIrNetBoxCommand | src/main/java/com/cats/ir/redrat/IrNetBoxPro.java:103-124 | the hub command that registers a box starts with `hq="add irnetbox" ip="` and ends with the box's ip in quotes |
| Devices.Device.IrNetBoxPro | src/main/java/com/cats/ir/redrat/IrNetBoxPro.java:52-58 | an IrNetBoxPro keeps its id and ip, has type IRNETBOXPRO3, and has no port list before `init` |
| Devices.Device.RedRat3 | src/main/java/com/cats/ir/redrat/RedRat3.java:59-67 | a named RedRat3 keeps its name, id and ip, has type REDRAT3, and after `init` has the one port numbered 1 |
| Devices.Device.RedRat3Unnamed | src/main/java/com/cats/ir/redrat/RedRat3.java:47-49 | the same, with the default name "No name 9130" |
| Devices.Device.ITach | src/main/java/com/cats/ir/gc/itach/iTach.java:46-62 | an iTach keeps its id, ip and dispatcher API base, has type ITACH, and `init` gives it ports 1 to 3 |
| Devices.Device.GC100 | src/main/java/com/cats/ir/gc/gc100/GC100.java:36-46 | a GC100 keeps its id, module and API base, has no ip, and its `init` builds no port list |
| Devices.Device.InitIrNetBoxPro | src/main/java/com/cats/ir/redrat/IrNetBoxPro.java:103-124 | ports 1 to 16 are built first; without a pool the hub command is a NullPointerException; with one, a borrowed communicator has been sent the registration command and is never handed back, and the result is true unless reading the hub's answer fails, which is rethrown as a RuntimeException |
| Devices.Device.Display | src/main/java/com/cats/ir/redrat/RedRatDevice.java:40-42 | a device prints as "device " followed by its id |
| Devices.Device.GetPort | src/main/java/com/cats/ir/redrat/RedRatDevice.java:45-57 | a port is found exactly when the list holds its number, and the one found is the first with that number |
| Devices.Device.SetApiBase | src/main/java/com/cats/ir/gc/GCDevice.java:75-77 | the API base becomes the given one |
| Devices.Device.Equals | src/main/java/com/cats/ir/redrat/RedRatDevice.java:60-68 | an equal device is non-null with the same id; a RedRat device equals only one of its own class and ip; an iTach equals nothing |
| Devices.Device.HashCode | src/main/java/com/cats/ir/redrat/IrNetBoxPro.java:96-98 | every class but GC100 overrides the hash; GC100 keeps the identity hash |
| Devices.ITachNeverEqual | src/main/java/com/cats/ir/gc/itach/iTach.java:84-96 | an iTach is equal to nothing, itself included, because it asks for an IrNetBoxPro |
| Devices.EqualsReflexive | src/main/java/com/cats/ir/gc/GCDevice.java:61-69 | every device class but iTach is equal to itself |
| Devices.EqualsSymmetric | src/main/java/com/cats/ir/redrat/RedRatDevice.java:60-68 | among the classes other than iTach, equality is symmetric |
| Devices.EqualsAgreesWithHash | src/main/java/com/cats/ir/redrat/RedRat3.java:74-92 | equal devices whose class overrides `hashCode` have equal hashes |
| Devices.GC100EqualsITach | src/main/java/com/cats/ir/gc/GCDevice.java:61-69 | a GC100 equals an iTach with its id, but not the other way round |
| Devices.GCPortEquals | src/main/java/com/cats/ir/gc/GCDevicePort.java:96-109 | a non-null RedRat port passed in is a ClassCastException; an equal port has the same number |
| Devices.RedRatPortHash | src/main/java/com/cats/ir/redrat/RedRatDevicePort.java:220-227 | the port hash is a 32-bit value |
| Devices.RedRatPortEqualsAgreesWithHash | src/main/java/com/cats/ir/redrat/RedRatDevicePort.java:151-164 | equal RedRat ports have equal hashes |
| Devices.RedRatPortsOfOneDevice | src/main/java/com/cats/ir/redrat/RedRatDevicePort.java:151-164 | two ports of one IrNetBoxPro are equal exactly when their numbers are |
| Devices.ITachPortsNeverEqual | src/main/java/com/cats/ir/gc/GCDevicePort.java:96-109 | two iTach ports are never equal, because their devices never are |
| Devices.ExpectedResult | src/main/java/com/cats/ir/redrat/RedRatDevicePort.java:166-173 | there is an expected answer exactly for press-key commands, a hold included: "OK" on the hub and "success" on the dispatcher |
| Devices.Lookup | src/main/java/com/cats/ir/manager/LocalIRDeviceManager.java:144-153 | a device found is one in the cache; nothing is found exactly when the name is missing, empty or not cached and the ip is not cached |
| Devices.CachedThenFound | src/main/java/com/cats/ir/manager/LocalIRDeviceManager.java:100-153 | a device just cached after a miss is what the next lookup with the same name and ip finds |
| Devices.NameHitIgnoresType | src/main/java/com/cats/ir/manager/LocalIRDeviceManager.java:100-153 | a cached name answers the lookup whatever type is asked for |
| Devices.DeviceManager.constructor | src/main/java/com/cats/ir/manager/LocalIRDeviceManager.java:58-61 | a manager starts with an empty cache |
| Devices.DeviceManager.GetDeviceFromMap | src/main/java/com/cats/ir/manager/LocalIRDeviceManager.java:144-153 | the cached device the lookup finds, or null |
| Devices.DeviceManager.GetIRDevice | src/main/java/com/cats/ir/manager/LocalIRDeviceManager.java:100-139 | a cached device is returned and the cache is unchanged; otherwise a fresh device of the type's class, with the ip as its id, is cached under the ip, or under the name for a named RedRat3; the only failures come from a new IrNetBoxPro: a NullPointerException while the communicator manager has no pool, a RuntimeException when the hub's answer cannot be read; neither caches anything |
| Devices.DeviceManager.GetIRDeviceByUri | src/main/java/com/cats/ir/manager/LocalIRDeviceManager.java:85-92 | a null URI is an IllegalArgumentException; an unknown scheme is the lookup's exception; otherwise the device for the scheme's type and the URI's host |
| Devices.DeviceManager.AllAvailableDevices | src/main/java/com/cats/ir/manager/LocalIRDeviceManager.java:156-159 | exactly the cached devices |
| Remote.VerifyDelay | src/main/java/com/cats/ir/LocalRemote.java:81-85 | a delay passes exactly when it lies in 0..MAX_DELAY; anything else is an IllegalArgumentException |
| Remote.Parse | src/main/java/com/cats/ir/LocalRemote.java:375-399 | an ASCII digit gets its key name (ZERO..NINE); any other character gets null |
| Remote.ParseInjective | src/main/java/com/cats/ir/LocalRemote.java:375-399 | different digits get different key names |
| Remote.ChannelWords | src/main/java/com/cats/ir/LocalRemote.java:405-410 | the channel's digits become their key names, one each, in order |
| Remote.GetRemoteCommandFromChannel | src/main/java/com/cats/ir/LocalRemote.java:401-411 | a list is returned exactly for one to four ASCII digits, and it is their key names in order |
| Remote.CharKeys | src/main/java/com/cats/ir/LocalRemote.java:339-344 | each character of the text becomes the one-character string of that character, in order |
| Remote.Caught | src/main/java/com/cats/ir/LocalRemote.java:156-161 | an IRFailure or NotInitialized exception from the port becomes false; every other exception goes through; an answer is kept |
| Remote.KeyViewsAlternate | src/main/java/com/cats/ir/LocalRemote.java:244-247 | the children `pressKeys` adds alternate a press of each command and a delay, in list order |
| Remote.KeysActions | src/main/java/com/cats/ir/LocalRemote.java:241-256 | the port skips the group node and then, for each command in order, sends its press and sleeps the delay |
| Remote.RunOne | src/main/java/com/cats/ir/LocalRemote.java:150-167 | sending a one-node press is one translation and one dispatch, with one `next()` call |
| Remote.SendFresh | src/main/java/com/cats/ir/LocalRemote.java:248-250 | sending a tree just built performs the actions of its nodes in pre-order |
| Remote.ViewsExtend | src/main/java/com/cats/ir/commands/CatsCommand.java:96-110 | adding one node at the end keeps the earlier nodes' views |
| Remote.LeafPreOrder | src/main/java/com/cats/ir/commands/CatsCommand.java:72-76 | a command fresh from its constructor lists only itself |
| Remote.AddLeaf | src/main/java/com/cats/ir/commands/CatsCommand.java:96-110 | `add` of a fresh leaf puts exactly that leaf at the end of the pre-order |
| Remote.AddKey | src/main/java/com/cats/ir/LocalRemote.java:246 | one pass of the loop adds a press of the command and then a delay of the clamped gap |
| Remote.AddPress | src/main/java/com/cats/ir/LocalRemote.java:246 | `add(new PressKeyCommand(cmd, keySet))` appends that press |
| Remote.AddDelay | src/main/java/com/cats/ir/LocalRemote.java:246 | `add(new DelayCommand(d))` appends a delay of d clamped at 0 |
| Remote.BuildKeys | src/main/java/com/cats/ir/LocalRemote.java:244-247 | the tree `pressKeys` builds is the group followed, for each command in order, by its press and a delay |
| Remote.RepeatSplit | src/main/java/com/cats/ir/LocalRemote.java:286-295 | n+m rounds are n rounds and then m more, only when the first n all answered true |
| Remote.RepeatReleases | src/main/java/com/cats/ir/LocalRemote.java:286-323 | rounds that each keep the pool balanced keep it balanced however many run |
| Remote.OnceReleases | src/main/java/com/cats/ir/LocalRemote.java:150-256 | every press gives back every communicator it takes |
| Remote.LoopReleases | src/main/java/com/cats/ir/LocalRemote.java:286-323 | however a counted loop of presses ends, as many communicators are out as before it |
| Remote.TuneKeys | src/main/java/com/cats/ir/LocalRemote.java:430-445 | the keys `tune` presses are the channel's digit names in order, then SELECT unless auto-tune is on |
| Remote.NatToStringFits | src/main/java/com/cats/ir/LocalRemote.java:330-332 | a number's decimal rendering has at most k digits exactly when the number is below 10^k |
| Remote.TuneIntChannels | src/main/java/com/cats/ir/LocalRemote.java:448-450 | a number's decimal rendering is a valid channel exactly when the number is in 0..9999 |
| Remote.Singles | src/main/java/com/cats/ir/LocalRemote.java:339-344 | the text as one-character strings, in order |
| Remote.LocalRemote.constructor | src/main/java/com/cats/ir/LocalRemote.java:60-63 | a remote keeps its port and remote type, with delay 0 and auto-tune off |
| Remote.LocalRemote.GetDelay | src/main/java/com/cats/ir/LocalRemote.java:276-278 | the stored delay, always within 0..MAX_DELAY |
| Remote.LocalRemote.SetRemoteType | src/main/java/com/cats/ir/LocalRemote.java:116-121 | a null or empty type is an IllegalArgumentException and keeps the old type; any other type is stored |
| Remote.LocalRemote.SetAutoTuneEnabled | src/main/java/com/cats/ir/LocalRemote.java:139-141 | the flag becomes the argument |
| Remote.LocalRemote.SetDelay | src/main/java/com/cats/ir/LocalRemote.java:270-273 | a delay outside 0..MAX_DELAY is refused and not stored; any other delay is stored |
| Remote.LocalRemote.PressKey | src/main/java/com/cats/ir/LocalRemote.java:150-167 | no port or no command is false with nothing sent; otherwise one press of the command under the remote type, its IR failures caught as false |
| Remote.LocalRemote.PressKeyDelay | src/main/java/com/cats/ir/LocalRemote.java:177-182 | a bad delay is refused before anything is sent; otherwise one press, then a sleep of the delay unless the press threw |
| Remote.LocalRemote.PressHold | src/main/java/com/cats/ir/LocalRemote.java:193-206 | a hold press of the command in repeat or duration mode, with the remote's sleep after a true answer |
| Remote.LocalRemote.PressKeyAndHold | src/main/java/com/cats/ir/LocalRemote.java:193-206 | a hold press in REPEAT_MODE with the count, caught as `pressKey` is, then the remote's delay after a true answer |
| Remote.LocalRemote.PressKeyAndHoldDuration | src/main/java/com/cats/ir/LocalRemote.java:414-427 | a hold press in DURATION_MODE with the duration, likewise |
| Remote.LocalRemote.PressKeysDelay | src/main/java/com/cats/ir/LocalRemote.java:241-256 | no port or no list is false; otherwise one tree of all the presses, each followed by a delay of d, sent in one call, then the remote's delay after a true answer |
| Remote.LocalRemote.PressKeys | src/main/java/com/cats/ir/LocalRemote.java:215-230 | the same with delays of 0 between the presses |
| Remote.LocalRemote.PressKeyArray | src/main/java/com/cats/ir/LocalRemote.java:281-283 | the array's presses, as `pressKeys` of its list |
| Remote.LocalRemote.PressKeyInt | src/main/java/com/cats/ir/LocalRemote.java:326-328 | one press of the number's decimal rendering |
| Remote.LocalRemote.Loop | src/main/java/com/cats/ir/LocalRemote.java:286-323 | count rounds (none when count is not positive), stopping at the first round that is not true, with the optional sleep after each true round |
| Remote.LocalRemote.PressKeyCount | src/main/java/com/cats/ir/LocalRemote.java:286-295 | count presses, stopping at the first that is not true; a count of 0 or less presses nothing and answers true |
| Remote.LocalRemote.PressKeyCountDelay | src/main/java/com/cats/ir/LocalRemote.java:298-309 | a bad delay is refused before anything is sent; otherwise count presses with a sleep of the delay after each true one |
| Remote.LocalRemote.PressKeyCountDelayCommands | src/main/java/com/cats/ir/LocalRemote.java:312-323 | a bad delay is refused first; otherwise the whole list is pressed count times, with the delay between presses and after each true round |
| Remote.LocalRemote.SendText | src/main/java/com/cats/ir/LocalRemote.java:335-352 | null or empty text is false with nothing sent; otherwise each character is pressed with REPEAT_IR_COMMAND_DELAY between them, and an IllegalArgumentException becomes false |
| Remote.LocalRemote.Tune | src/main/java/com/cats/ir/LocalRemote.java:430-445 | anything but one to four ASCII digits is an IllegalArgumentException with nothing sent; otherwise the digit names, then SELECT unless auto-tune is on, pressed with the given delay |
| Remote.LocalRemote.TuneDefault | src/main/java/com/cats/ir/LocalRemote.java:265-267 | the same with DELAY_BETWEEN_KEYS between the keys |
| Remote.LocalRemote.TuneIntDelay | src/main/java/com/cats/ir/LocalRemote.java:448-450 | a number is refused exactly when it is negative or above 9999; otherwise `tune` of its decimal rendering |
| Remote.LocalRemote.TuneInt | src/main/java/com/cats/ir/LocalRemote.java:330-332 | the same with DELAY_BETWEEN_KEYS |
| Remote.LocalRemote.PerformShorthand | src/main/java/com/cats/ir/LocalRemote.java:365-373 | always an UnsupportedOperationException |
| Shorthand.Key | src/main/java/com/cats/service/CommandProcessor.java:31-131 | a digit maps to its key name as a channel digit does, a to d map to their upper-case letter, any key name is non-empty, and other unlisted characters have none |
| Shorthand.CommandFromSequence | src/main/java/com/cats/service/CommandProcessor.java:28-135 | the loop yields exactly the key names of the mapped characters, in input order |
| Shorthand.KeysAppend | src/main/java/com/cats/service/CommandProcessor.java:28-135 | the list of a concatenation is the concatenation of the lists, so the output follows the input order |
| Shorthand.KeysLength | src/main/java/com/cats/service/CommandProcessor.java:28-135 | the list is never longer than the input, and it is as long exactly when every character is mapped |
| Shorthand.KeysFrom | src/main/java/com/cats/service/CommandProcessor.java:28-135 | every name in the list is the key of some character of the input, so nothing is invented |
| Shorthand.DigitsAreChannelWords | src/main/java/com/cats/service/CommandProcessor.java:31-61 | on a string of digits the list is the channel's digit words, as the remote spells a channel |
| Shorthand.SkipUnmapped | src/main/java/com/cats/service/CommandProcessor.java:128-130 | a character without a key leaves the list as it was |
| Config.MaxPorts | src/main/java/com/cats/configuration/IRDeviceConfig.java:88-90 | the configured number of ports, or 16 when none is set |
| Config.IRDeviceConfig.constructor | src/main/java/com/cats/configuration/IRDeviceConfig.java:52-94 | a new device block has every field null |
| Config.IRDeviceConfig.SetType | src/main/java/com/cats/configuration/IRDeviceConfig.java:56-58 | only the type changes |
| Config.IRDeviceConfig.SetHost | src/main/java/com/cats/configuration/IRDeviceConfig.java:65-67 | only the host changes |
| Config.IRDeviceConfig.SetPort | src/main/java/com/cats/configuration/IRDeviceConfig.java:74-76 | only the port changes |
| Config.IRDeviceConfig.SetCount | src/main/java/com/cats/configuration/IRDeviceConfig.java:83-85 | only the count changes |
| Config.IRDeviceConfig.SetMaxPorts | src/main/java/com/cats/configuration/IRDeviceConfig.java:92-94 | only the maximum changes, and `getMaxPorts` then returns it |
| Config.Values | src/main/java/com/cats/configuration/IRConfiguration.java:159-163 | the copy of a block list holds each block's current fields, in order |
| Config.JoinSnoc | src/main/java/com/cats/configuration/IRConfiguration.java:207-212 | joining one more octet adds a dot and that octet |
| Config.DottedJoin | src/main/java/com/cats/configuration/IRConfiguration.java:207-212 | every octet followed by a dot is the dotted join with one trailing dot |
| Config.DotEach | src/main/java/com/cats/configuration/IRConfiguration.java:207-210 | the loop writes every octet followed by a dot, and its text is empty only for no octets |
| Config.CarryOctets | src/main/java/com/cats/configuration/IRConfiguration.java:197-205 | the in-place carry over the octet array, right to left, does what `Carry` describes, and a non-numeric octet stops it with NumberFormatException |
| Config.CalculateNextHost | src/main/java/com/cats/configuration/IRConfiguration.java:194-214 | the result is `NextHost`: null is a NullPointerException, a non-numeric octet a NumberFormatException, a host of dots only a StringIndexOutOfBoundsException, otherwise the carried octets joined by dots |
| Config.CarryShape | src/main/java/com/cats/configuration/IRConfiguration.java:197-205 | a successful carry turns a run of trailing octets into "0" and increments the one octet before the run, or runs off the front |
| Config.CarriedFree | src/main/java/com/cats/configuration/IRConfiguration.java:197-205 | the carry writes no dots into an octet and leaves the last octet non-empty |
| Config.NextHostKeepsOctets | src/main/java/com/cats/configuration/IRConfiguration.java:194-214 | the next host splits back into exactly the carried octets, as many as the host had |
| Config.FollowingShape | src/main/java/com/cats/configuration/IRConfiguration.java:166-179 | the later copies of a block are m blocks of one, each on the next host of the one before |
| Config.CopiesShape | src/main/java/com/cats/configuration/IRConfiguration.java:164-182 | a block of count devices becomes that many blocks of one (none for a count below 1), the first on the block's host and each later one on the next host of the one before |
| Config.NormalizeShape | src/main/java/com/cats/configuration/IRConfiguration.java:155-185 | the normalised list has one entry per device of the blocks, each a block of one |
| Config.NormalizeIdempotent | src/main/java/com/cats/configuration/IRConfiguration.java:155-185 | normalising an already normalised list gives it back unchanged |
| Config.NormalizeOnes | src/main/java/com/cats/configuration/IRConfiguration.java:155-185 | blocks of one normalise to themselves in front of a normalised tail |
| Config.CopiesOf | src/main/java/com/cats/configuration/IRConfiguration.java:165-181 | the inner loop over one block gives the copies `Copies` describes, and a failing next host ends the whole normalisation with its exception |
| Config.CopyStep | src/main/java/com/cats/configuration/IRConfiguration.java:166-179 | a failing next host ends the copies with its exception; otherwise one more copy on the new host |
| Config.FirstCopy | src/main/java/com/cats/configuration/IRConfiguration.java:170-171 | the first copy of a block is on the block's own host |
| Config.IRConfiguration.constructor | src/main/java/com/cats/configuration/IRConfiguration.java:68-146 | a configuration holds the given hub host and port, API base and device lists |
| Config.IRConfiguration.GetNormalizedIrDevices | src/main/java/com/cats/configuration/IRConfiguration.java:155-185 | the blocks of `irDevices`, or else of `irNetBox` with the default type "irNetBox", normalised into blocks of one; with neither list, a NullPointerException |
| Slots.SlotToPortMappings.constructor | src/main/java/com/cats/ir/SlotToPortMappings.java:30-36 | a new table holds a fresh, empty map |
| Slots.SlotToPortMappings.SetMappings | src/main/java/com/cats/ir/SlotToPortMappings.java:39-41 | the table becomes the given map object itself, not a copy of it |
| Slots.SlotToPortMappings.RemoveMappings | src/main/java/com/cats/ir/SlotToPortMappings.java:43-45 | the table gets a fresh empty map, and whoever held the old map keeps its entries |
| Slots.SlotToPortMappings.AddMapping | src/main/java/com/cats/ir/SlotToPortMappings.java:47-49 | the slot is mapped to the device info, replacing any earlier mapping |
| Slots.SlotToPortMappings.RemoveMapping | src/main/java/com/cats/ir/SlotToPortMappings.java:51-57 | a mapped slot loses exactly its entry; an unmapped slot is a SlotMappingException and nothing changes |
| Slots.SlotToPortMappings.GetMapping | src/main/java/com/cats/ir/SlotToPortMappings.java:59-64 | a slot's mapping is found exactly when the slot is mapped; otherwise it is a SlotMappingException |
| Slots.SplitMapping | src/main/java/com/cats/service/SlotMappingService.java:197-206 | a written "device:port" splits back into its two numbers |
| Slots.ValidMappingOf | src/main/java/com/cats/service/SlotMappingService.java:197-206 | "device:port" written from 32-bit numbers is valid exactly when both are at least 1 |
| Slots.ValidMappingParts | src/main/java/com/cats/service/SlotMappingService.java:197-206 | a valid mapping has at least two parts, and its first two parse as numbers of at least 1 |
| Slots.SlotMappingService.constructor | src/main/java/com/cats/service/SlotMappingService.java:50-65 | the table is the one read from the mappings file, or an empty one when the file cannot be read |
| Slots.SlotMappingService.SetMappings | src/main/java/com/cats/service/SlotMappingService.java:78-98 | one invalid entry is a SlotMappingException and the table is unchanged; otherwise the table becomes the caller's map itself; the caller's entries are never altered by the call |
| Slots.SlotMappingService.RemoveMappings | src/main/java/com/cats/service/SlotMappingService.java:105-117 | the table starts again from a fresh empty map |
| Slots.SlotMappingService.GetMapping | src/main/java/com/cats/service/SlotMappingService.java:126-133 | a mapped slot gives its mapping; an unmapped one is a SlotMappingException |
| Slots.SlotMappingService.SetMapping | src/main/java/com/cats/service/SlotMappingService.java:144-166 | an invalid mapping is a SlotMappingException with the table unchanged; a valid one replaces or adds exactly that slot's entry |
| Slots.SlotMappingService.RemoveMapping | src/main/java/com/cats/service/SlotMappingService.java:176-190 | a mapped slot loses exactly its entry; an unmapped one is a SlotMappingException with the table unchanged |
| Slots.SetMappingsShares | src/main/java/com/cats/service/SlotMappingService.java:78-166 | after a successful `setMappings(m)`, a valid `setMapping` on the service shows in the caller's map m |
| Slots.SetMappingKeepsValid | src/main/java/com/cats/service/SlotMappingService.java:144-166 | a table of valid entries stays valid through `setMapping`, whatever the argument |
| Processor.FindIrRemoteType | src/main/java/com/cats/service/RemoteProcessor.java:175-200 | "itach", "gc100", "gc100_12" and "redrat" pick their hardware kinds; anything else, null included, is an IrNetBoxPro |
| Processor.RemoteTypeOnHub | src/main/java/com/cats/service/RemoteProcessor.java:175-200 | the hub drives a device exactly when its type is none of the three Global Caché names |
| Processor.SumPortsCons | src/main/java/com/cats/service/RemoteProcessor.java:153-159 | the total port count of a list is the first device's count plus that of the rest |
| Processor.LocateSound | src/main/java/com/cats/service/RemoteProcessor.java:102-115 | a located slot is on a device of the list, within its ports, at the slot minus the ports of the devices before it, and a slot of at least 1 gets a port of at least 1 |
| Processor.LocateFirst | src/main/java/com/cats/service/RemoteProcessor.java:102-115 | the located device is the first whose ports reach the slot: every device before it ends before the slot |
| Processor.LocateComplete | src/main/java/com/cats/service/RemoteProcessor.java:102-115 | every slot up to the total number of ports is found |
| Processor.LocateBeyond | src/main/java/com/cats/service/RemoteProcessor.java:102-115 | with no negative port counts, a slot beyond the total is an IllegalStateException |
| Processor.LocateNumbering | src/main/java/com/cats/service/RemoteProcessor.java:102-115 | counting inverts numbering: the slot made of the ports before device d plus port p is located at device d, port p |
| Processor.RemoteProcessor.constructor | src/main/java/com/cats/service/RemoteProcessor.java:51-56 | a processor keeps its mapping service and configuration and starts with no devices |
| Processor.RemoteProcessor.Init | src/main/java/com/cats/service/RemoteProcessor.java:51-56 | the device list becomes the normalised configuration; a failing normalisation fails with its exception |
| Processor.RemoteProcessor.FindDeviceAndPortMapping | src/main/java/com/cats/service/RemoteProcessor.java:91-118 | the explicit mapping of the slot when any slot is mapped (an unmapped slot or bad mapping throws), otherwise the counting walk over the devices |
| Processor.RemoteProcessor.ValidateSlot | src/main/java/com/cats/service/RemoteProcessor.java:66-73 | true exactly when the slot is found; false exactly when the count runs past every device; any other failure is passed on |
| Processor.RemoteProcessor.ValidateDevice | src/main/java/com/cats/service/RemoteProcessor.java:80-84 | a number answers without throwing, and it is true exactly for 1 to the number of devices; a non-number throws |
| Processor.RemoteProcessor.DeviceHasPort | src/main/java/com/cats/service/RemoteProcessor.java:125-129 | it answers exactly when both are numbers and the device is in the list, and then it is true exactly for a port from 1 to the device's port count |
| Processor.RemoteProcessor.FindMaxPortsOfDevice | src/main/java/com/cats/service/RemoteProcessor.java:136-146 | a number answers without throwing: the device's port count for a device in the list, 0 otherwise |
| Processor.RemoteProcessor.NumSlots | src/main/java/com/cats/service/RemoteProcessor.java:153-159 | the loop adds up the port counts of all devices |
| Processor.RemoteProcessor.NumDevices | src/main/java/com/cats/service/RemoteProcessor.java:166-168 | the number of devices in the list |
| Processor.RemoteProcessor.GetRemoteOfDevice | src/main/java/com/cats/service/RemoteProcessor.java:223-233 | a failing normalisation fails; otherwise the remote of that device of the freshly normalised configuration |
| Processor.RemoteProcessor.GetRemote | src/main/java/com/cats/service/RemoteProcessor.java:207-216 | a failing normalisation fails; no devices is an IllegalStateException; otherwise the slot's device and port, and then that device's remote |
| Processor.RemoteFor | src/main/java/com/cats/service/RemoteProcessor.java:223-233 | a remote is built exactly for a device number from 1 to the list's size, otherwise an IllegalArgumentException; it is on that device's host, at the port asked for, with the keyset and the kind its type names |
| Processor.SlotInRangeGetsRemote | src/main/java/com/cats/service/RemoteProcessor.java:207-233 | without explicit mappings, every slot from 1 to the total number of ports reaches a remote on a port its device has |
| HubHealth.CommandOf | src/main/java/com/cats/ir/hubhealth/HubHealthCheck.java:65-72 | a hub command exists exactly for the five health requests, and each gets its own command text |
| HubHealth.EndCharOf | src/main/java/com/cats/ir/hubhealth/HubHealthCheck.java:73-79 | a terminator exists exactly for the five requests: "}" for both lists, ")" for the version, one line for the per-device queries |
| HubHealth.EveryCommandFramed | src/main/java/com/cats/ir/hubhealth/HubHealthCheck.java:65-80 | a request has a command exactly when it has a terminator, so the default prompt is never used |
| HubHealth.ParseKeysets | src/main/java/com/cats/ir/hubhealth/HubHealthCheck.java:230-245 | an answer that splits into no lines is an IndexOutOfBoundsException; a single line gives no keysets; otherwise every line but the first and the last, untrimmed |
| HubHealth.KeysetsRoundTrip | src/main/java/com/cats/ir/hubhealth/HubHealthCheck.java:230-245 | keysets written one per line between the braces are read back unchanged, spaces included |
| HubHealth.FoldNames | src/main/java/com/cats/ir/hubhealth/HubHealthCheck.java:260-266 | the loop succeeds exactly when every component is well formed (else IndexOutOfBoundsException), and then the map's names are exactly the component names |
| HubHealth.ParseHubVersion | src/main/java/com/cats/ir/hubhealth/HubHealthCheck.java:253-268 | the version map is that of the components in order, with an empty answer giving an empty map |
| HubHealth.WrittenSplit | src/main/java/com/cats/ir/hubhealth/HubHealthCheck.java:259 | a version answer splits back into its "Name (version)" parts |
| HubHealth.WrittenComponents | src/main/java/com/cats/ir/hubhealth/HubHealthCheck.java:261-264 | each written part parses back to its own name and version |
| HubHealth.ComponentOfWords | src/main/java/com/cats/ir/hubhealth/HubHealthCheck.java:261-264 | "name (version)" parses as that name and that version with the parentheses removed |
| HubHealth.FoldEntered | src/main/java/com/cats/ir/hubhealth/HubHealthCheck.java:260-266 | folding the components puts them into the map in order, so a repeated name keeps its last version |
| HubHealth.HubVersionRoundTrip | src/main/java/com/cats/ir/hubhealth/HubHealthCheck.java:253-268 | the version answer for any list of components reads back as the map that enters them in order |
| HubHealth.CompareStrings | src/main/java/com/cats/ir/hubhealth/RedRatDeviceBean.java:103-109 | `String.compareTo` is 0 exactly for equal strings |
| HubHealth.CompareAntisymmetric | src/main/java/com/cats/ir/hubhealth/RedRatDeviceBean.java:103-109 | comparing the other way round negates the result |
| HubHealth.CompareTransitive | src/main/java/com/cats/ir/hubhealth/RedRatDeviceBean.java:103-109 | the string order is transitive |
| HubHealth.LexicographicNotNumeric | src/main/java/com/cats/ir/hubhealth/HubHealthCheck.java:306 | ips compare character by character, so "10.0.0.10" sorts before "10.0.0.2" |
| HubHealth.Insert | src/main/java/com/cats/ir/hubhealth/HubHealthCheck.java:306 | inserting a bean adds exactly that bean to the list |
| HubHealth.SortByIp | src/main/java/com/cats/ir/hubhealth/HubHealthCheck.java:306 | the sort is a permutation of its input |
| HubHealth.InsertSorted | src/main/java/com/cats/ir/hubhealth/HubHealthCheck.java:306 | inserting into a list sorted by ip keeps it sorted |
| HubHealth.SortByIpSorted | src/main/java/com/cats/ir/hubhealth/HubHealthCheck.java:306 | the sorted list is ordered by ip |
| HubHealth.SortByIpSortedFixed | src/main/java/com/cats/ir/hubhealth/HubHealthCheck.java:306 | a list already sorted by ip is its own sort |
| HubHealth.IndexOf | src/main/java/com/cats/ir/hubhealth/HubHealthCheck.java:286-293 | the first position of a character, or none when it does not occur |
| HubHealth.LastIndexOf | src/main/java/com/cats/ir/hubhealth/HubHealthCheck.java:286-293 | the last position of a character, or none when it does not occur |
| HubHealth.IndexOfText | src/main/java/com/cats/ir/hubhealth/HubHealthCheck.java:286-295 | the first position where the text occurs, so it occurs nowhere before it; none exactly when it occurs nowhere |
| HubHealth.ShiftedOccurrences | src/main/java/com/cats/ir/hubhealth/HubHealthCheck.java:286-295 | past the first character, the text occurs in a string where it occurs one place earlier in the string's tail |
| HubHealth.MatchLine | src/main/java/com/cats/ir/hubhealth/HubHealthCheck.java:286-304 | a line the pattern misses gives no bean; a bean found has no firmware or hardware type yet; the only failure is an IndexOutOfBoundsException |
| HubHealth.Step | src/main/java/com/cats/ir/hubhealth/HubHealthCheck.java:282-285 | a line starting with a brace contributes nothing |
| HubHealth.Gather | src/main/java/com/cats/ir/hubhealth/HubHealthCheck.java:281-305 | the loop collects at most one bean per line |
| HubHealth.GatherKeepsError | src/main/java/com/cats/ir/hubhealth/HubHealthCheck.java:281-305 | once a line has failed, the whole parse fails the same way |
| HubHealth.GatherNext | src/main/java/com/cats/ir/hubhealth/HubHealthCheck.java:281-305 | one more line adds its bean, adds nothing, or fails the parse, after the lines before it collected their beans |
| HubHealth.DevicesOf | src/main/java/com/cats/ir/hubhealth/HubHealthCheck.java:276-309 | a parsed list is sorted by ip and holds exactly the beans the lines produced; it fails exactly when a line failed |
| HubHealth.DevicesUnqueried | src/main/java/com/cats/ir/hubhealth/HubHealthCheck.java:276-309 | the parsed beans carry no firmware or hardware type |
| HubHealth.ParseRedRatDeviceList | src/main/java/com/cats/ir/hubhealth/HubHealthCheck.java:276-309 | one pass over the lines and then the sort, as `DevicesOf` describes |
| HubHealth.MatchPartsOfLine | src/main/java/com/cats/ir/hubhealth/HubHealthCheck.java:286-289 | "[type] (mac) at rest" is matched as that type, mac and rest |
| HubHealth.MatchPartsAt | src/main/java/com/cats/ir/hubhealth/HubHealthCheck.java:286-289 | once the closing bracket, the " at " and the '(' before it are found, the match is the text between them |
| HubHealth.MatchLineNoStatus | src/main/java/com/cats/ir/hubhealth/HubHealthCheck.java:290-302 | with no status after the ip, the bean has the mac's '-' written as ':' and the status "" |
| HubHealth.MatchLineStatus | src/main/java/com/cats/ir/hubhealth/HubHealthCheck.java:297-301 | "ip (status)" after "at" gives that ip and that status without the parentheses |
| HubHealth.MatchDeviceLine | src/main/java/com/cats/ir/hubhealth/HubHealthCheck.java:286-304 | a device line with non-empty plain fields is read back as its bean |
| HubHealth.LineOfListable | src/main/java/com/cats/ir/hubhealth/HubHealthCheck.java:281-305 | each listed device line yields its own bean |
| HubHealth.GatherList | src/main/java/com/cats/ir/hubhealth/HubHealthCheck.java:281-305 | the lines of a device list between the braces collect back into that list, in order |
| HubHealth.ListTextSplit | src/main/java/com/cats/ir/hubhealth/HubHealthCheck.java:279 | the device answer splits back into its lines |
| HubHealth.DeviceListRoundTrip | src/main/java/com/cats/ir/hubhealth/HubHealthCheck.java:276-309 | the device answer for listable beans reads back as those beans in ip order |
| HubHealth.RedRatDeviceBean.constructor | src/main/java/com/cats/ir/hubhealth/RedRatDeviceBean.java:44-49 | a bean holds the given type, mac, ip and status, with no hardware type or firmware version |
| HubHealth.RedRatDeviceBean.SetType | src/main/java/com/cats/ir/hubhealth/RedRatDeviceBean.java:55-57 | only the type changes |
| HubHealth.RedRatDeviceBean.SetMac | src/main/java/com/cats/ir/hubhealth/RedRatDeviceBean.java:63-65 | only the mac changes |
| HubHealth.RedRatDeviceBean.SetIp | src/main/java/com/cats/ir/hubhealth/RedRatDeviceBean.java:71-73 | only the ip changes |
| HubHealth.RedRatDeviceBean.SetStatus | src/main/java/com/cats/ir/hubhealth/RedRatDeviceBean.java:79-81 | only the status changes |
| HubHealth.RedRatDeviceBean.SetHardwareType | src/main/java/com/cats/ir/hubhealth/RedRatDeviceBean.java:87-89 | only the hardware type changes |
| HubHealth.RedRatDeviceBean.SetFirmwareVersion | src/main/java/com/cats/ir/hubhealth/RedRatDeviceBean.java:95-97 | only the firmware version changes |
| HubHealth.RedRatDeviceBean.CompareTo | src/main/java/com/cats/ir/hubhealth/RedRatDeviceBean.java:103-109 | against another bean: at most 0 exactly when this ip sorts first or equal, and 0 exactly for equal ips; against anything else -1 |
| HubHealth.CompareToAntisymmetric | src/main/java/com/cats/ir/hubhealth/RedRatDeviceBean.java:103-109 | two beans compare in opposite directions |
| HubHealth.ConnectedIgnoringCase | src/main/java/com/cats/ir/hubhealth/HubHealthCheck.java:316 | a device counts as connected exactly when its status equals "connected" ignoring case |
| HubHealth.SortedUnqueried | src/main/java/com/cats/ir/hubhealth/HubHealthCheck.java:306 | filling in the queried fields keeps a list sorted, since the order looks only at the ips |
| HealthCheck.HubHealthCheck.constructor | src/main/java/com/cats/ir/hubhealth/HubHealthCheck.java:48-63 | a new check has no pool, no health bean and a close count of 0 |
| HealthCheck.HubHealthCheck.SendCommand | src/main/java/com/cats/ir/hubhealth/HubHealthCheck.java:138-170 | an unknown request is "" and leaves the pool alone; without a pool it is a NullPointerException; a pool that lends nothing is a NullPointerException from the error log's second borrow; a failed read leaves the error log's two borrows out of the pool (active up by two, or by one when the pool runs dry) and answers "" only when both were lent; otherwise the communicator lent (the first idle one, or a fresh one) sends the command and answers as `Exchange` says for its state before the call, "" when it is not connected and cannot connect, and goes back to the end of the idle list |
| HealthCheck.HubHealthCheck.LogUnreachableHub | src/main/java/com/cats/ir/hubhealth/HubHealthCheck.java:164-166 | the error log borrows for the host and then for the port and returns neither: each lent borrow is counted active, and a borrow that gives null is a NullPointerException |
| HealthCheck.HubHealthCheck.SendCommandWithIp | src/main/java/com/cats/ir/hubhealth/HubHealthCheck.java:178-209 | the same exchange with the ip and a closing quote after the command, except that a pool that lends nothing or a failed read just gives "" and the communicator still goes back; the answer is the lent communicator's, as `Exchange` says |
| HealthCheck.HubHealthCheck.Ask | src/main/java/com/cats/ir/hubhealth/HubHealthCheck.java:99-109 | one query of `process`: no answer (an exception) when the pool lends nothing; after a failed read "" when the error log's two borrows were lent and an exception otherwise; else the lent communicator's answer as `Exchange` gives it, and a pool lending one communicator then holds that communicator in its new state; the active count is unchanged except for the error log's leaked borrows |
| HealthCheck.HubHealthCheck.AskWithIp | src/main/java/com/cats/ir/hubhealth/HubHealthCheck.java:117-119 | one per-device query of `process` always answers: "" when nothing is lent or the read fails, else the lent communicator's answer as `Exchange` gives it, with that communicator's new state next in a one-communicator pool; the active count is unchanged |
| HealthCheck.HubHealthCheck.Process | src/main/java/com/cats/ir/hubhealth/HubHealthCheck.java:92-130 | no pool gives no bean; otherwise a bean whose version, keysets and devices are the parses of the first, second and third answers as far as they succeed, with the hub up exactly when all succeeded; for a pool lending one communicator whose reads answer, the bean is `Report` of that communicator's state, so it is fixed by what the hub sends; the pool's active count never drops, and is unchanged when no communicator's read fails |
| HealthCheck.HubHealthCheck.AskHeader | src/main/java/com/cats/ir/hubhealth/HubHealthCheck.java:97-106 | the version is kept exactly when the first answer came and parsed, the keysets exactly when the second did too, and the walk goes on to the device list exactly when both were kept; for a one-communicator pool whose reads answer, the bean and the communicator's state after are `Header` of its state before; the active count behaves as in `Ask` |
| HealthCheck.HubHealthCheck.AskDevices | src/main/java/com/cats/ir/hubhealth/HubHealthCheck.java:109-125 | the hub is up exactly when the device list answer came and parsed, and then only the devices and the flag change; the devices are the parse sorted by ip, with only connected ones queried; for a one-communicator pool whose reads answer, the bean is `Listed` of the header and the communicator's state |
| HealthCheck.HubHealthCheck.ListDevices | src/main/java/com/cats/ir/hubhealth/HubHealthCheck.java:110-122 | a list exactly when the answer parses, holding the parsed beans in ip order with only connected ones queried, and for a one-communicator pool whose reads answer, the queries `Queried` gives |
| HealthCheck.HubHealthCheck.Survey | src/main/java/com/cats/ir/hubhealth/HubHealthCheck.java:110-121 | after the per-device queries the list is still sorted by ip, and only connected devices carry firmware or hardware type; for a one-communicator pool whose reads answer, the list is what `Queried` gives |
| HealthCheck.HubHealthCheck.QueryDevices | src/main/java/com/cats/ir/hubhealth/HubHealthCheck.java:113-122 | the loop over the parsed devices changes nothing but the queried fields, and leaves devices that are not connected as they were; for a one-communicator pool whose reads answer, the devices are what `Queried` gives and the pool stays so |
| HealthCheck.HubHealthCheck.QueryAt | src/main/java/com/cats/ir/hubhealth/HubHealthCheck.java:113-122 | one turn of the loop keeps its invariant: the devices before the cursor are queried as `Queried` says, those after it untouched |
| HealthCheck.HubHealthCheck.QueryDevice | src/main/java/com/cats/ir/hubhealth/HubHealthCheck.java:114-121 | one device: a device that is not connected is left as it was; a connected one gets the firmware answer and then the hardware answer, as `QueryOne` gives them from the communicator's state, and nothing else changes |
| HealthCheck.HubHealthCheck.Init | src/main/java/com/cats/ir/hubhealth/HubHealthCheck.java:84-90 | an unset hub flag cannot be unboxed (NullPointerException) and nothing changes; otherwise the manager's pool is taken when the hub is a dependency, the close count is reset, and there is a bean exactly when there is a pool |
| HealthCheck.EmptyAnswersParse | src/main/java/com/cats/ir/hubhealth/HubHealthCheck.java:99-124 | the "" a failed read answers parses as an empty version map, no keysets and no devices, so `process` reports such a hub up |
| HealthCheck.Exchange | src/main/java/com/cats/ir/hubhealth/HubHealthCheck.java:154-163 | a communicator that is neither connected nor able to connect answers "" and is left as it was; the reachability of the hub never changes |
| HealthCheck.Queried | src/main/java/com/cats/ir/hubhealth/HubHealthCheck.java:113-122 | the queries keep one bean per device, leave the devices that are not connected as they were, and do not change whether the hub is reachable |
| HealthCheck.QueryOne | src/main/java/com/cats/ir/hubhealth/HubHealthCheck.java:114-121 | a device that is not connected is left as it was and the communicator untouched; otherwise only the firmware and hardware fields change |
| HealthCheck.QueriedStep | src/main/java/com/cats/ir/hubhealth/HubHealthCheck.java:113-122 | the queries over a list are those of its first device followed by those of the rest |
| HealthCheck.QueriedUnqueried | src/main/java/com/cats/ir/hubhealth/HubHealthCheck.java:113-122 | the queries change nothing but the queried fields |
| HealthCheck.Header | src/main/java/com/cats/ir/hubhealth/HubHealthCheck.java:97-106 | the header never has the hub up nor a device list; keysets only after a version; the walk goes on exactly when the keysets were kept |
| HealthCheck.Report | src/main/java/com/cats/ir/hubhealth/HubHealthCheck.java:92-130 | the hub is up exactly when the bean has a device list, and then also keysets and a version |
| HealthCheck.Listed | src/main/java/com/cats/ir/hubhealth/HubHealthCheck.java:109-125 | either the bean as it was, or the same bean with the hub up and a device list |
| HealthCheck.HealthyHubReport | src/main/java/com/cats/ir/hubhealth/HubHealthCheck.java:92-130 | a hub whose one communicator answers a version line, a keyset block and a device list is reported up with the version map that enters those components, exactly those keysets, and those devices sorted by ip (up to the queried fields) |
| HealthCheck.HealthyHeader | src/main/java/com/cats/ir/hubhealth/HubHealthCheck.java:97-106 | a version line and a keyset block give a header with the entered version map and the keysets, and leave the communicator past both |
| HealthCheck.HeaderRead | src/main/java/com/cats/ir/hubhealth/HubHealthCheck.java:97-106 | a version line that parses, then a keyset block, gives that version map and those keysets |
| HealthCheck.HealthyList | src/main/java/com/cats/ir/hubhealth/HubHealthCheck.java:109-125 | a device list block makes the hub up with those devices sorted by ip, up to the queried fields |
| HealthCheck.ListRead | src/main/java/com/cats/ir/hubhealth/HubHealthCheck.java:109-125 | a device block that parses makes the hub up with the queried parse |
| HealthCheck.VersionExchange | src/main/java/com/cats/ir/hubhealth/HubHealthCheck.java:99 | a version line with no brace that ends with ")" is read alone as the answer |
| HealthCheck.BlockExchange | src/main/java/com/cats/ir/hubhealth/HubHealthCheck.java:104-109 | a brace block is read up to its closing line and answers its lines joined by newlines |
| HealthCheck.IsHubHealthOutdated | src/main/java/com/cats/ir/hubhealth/HubHealthCheck.java:311-327 | a null list gives false; otherwise the answer is that of the press loop over the devices that are not connected |
| HealthCheck.AllConnectedNotOutdated | src/main/java/com/cats/ir/hubhealth/HubHealthCheck.java:311-327 | with every device connected nothing is pressed and the answer stays as it was |
| HealthCheck.LastPressDecides | src/main/java/com/cats/ir/hubhealth/HubHealthCheck.java:311-327 | when no press fails, the answer is the press result of the last device that is not connected |
| HealthCheck.FailedPressStops | src/main/java/com/cats/ir/hubhealth/HubHealthCheck.java:311-327 | a failing press fixes the answer to the one before it, whatever the later devices do |
| HealthCheck.UnqueriedFresh | src/main/java/com/cats/ir/hubhealth/HubHealthCheck.java:276-309 | beans without firmware or hardware type are their own unqueried form |
| HealthStatus.DeviceReportOf | src/main/java/com/cats/ir/hubhealth/HealthReport.java:47-54 | a hub device's report is healthy exactly when its status equals "connected", ignoring case |
| HealthStatus.GcReportOf | src/main/java/com/cats/ir/hubhealth/HealthReport.java:56-69 | reading a dispatcher device whose health or error list is null throws NullPointerException; otherwise its report is named "iTach" and numbered by its place, has that number as its id, is healthy exactly when the device is available, and carries the "Errors" entry "[]" exactly when the error list is empty |
| HealthStatus.HubReportOf | src/main/java/com/cats/ir/hubhealth/HealthReport.java:71-75 | the hub's report is named "RedRatHub" and is healthy exactly when the hub is up |
| HealthStatus.DispatcherReportOf | src/main/java/com/cats/ir/hubhealth/HealthReport.java:77-90 | the dispatcher's report is named "GC Dispatcher Service", is healthy exactly when it answered, and carries a remark exactly when it did not |
| HealthStatus.MicroServiceVersion | src/main/java/com/cats/ir/hubhealth/HealthStatusBean.java:89-102 | an unreadable manifest gives "NA"; a missing or empty Implementation-Version gives "development"; any other is used as it is, so the version is never empty |
| HealthStatus.DeviceReportsSnoc | src/main/java/com/cats/ir/hubhealth/HealthStatusBean.java:70-75 | one more device gives one more report, and the service stays healthy only if that device is connected |
| HealthStatus.StatusOf | src/main/java/com/cats/ir/hubhealth/HealthStatusBean.java:55-87 | the constructor fails, with a NullPointerException, exactly when a bean it is given has a null device list or a dispatcher device has a null health or error list |
| HealthStatus.UnreadableDeviceFails | src/main/java/com/cats/ir/hubhealth/HealthReport.java:58 | a dispatcher device with no health record makes the constructor throw NullPointerException, whatever the hub bean |
| HealthStatus.StatusHealthy | src/main/java/com/cats/ir/hubhealth/HealthStatusBean.java:58-86 | the report is healthy exactly when some dependency was given, the hub (if given) is up with every device connected, and the dispatcher (if given) answered |
| HealthStatus.HardwareReports | src/main/java/com/cats/ir/hubhealth/HealthStatusBean.java:69-84 | one hardware report per hub device in order, saying whether it is connected, then one per dispatcher device, named "iTach1", "iTach2", ..., each readable one being the report `GcReportOf` gives |
| HealthStatus.StatusReports | src/main/java/com/cats/ir/hubhealth/HealthStatusBean.java:67-86 | the hardware reports are the hub's then the dispatcher's, and there is one dependency report per bean given, the hub's first |
| HealthStatus.HubDownFails | src/main/java/com/cats/ir/hubhealth/HealthStatusBean.java:69-70 | a hub bean left without devices by a failed `process` makes the constructor throw |
| HealthStatus.DispatcherDownFails | src/main/java/com/cats/ir/hubhealth/HealthStatusBean.java:80-82 | a dispatcher bean without a result makes the constructor throw |
| HealthStatus.StatusGuarded | src/main/java/com/cats/ir/hubhealth/HealthStatusBean.java:55-87 | reading absent lists as empty and an absent device health as unavailable always gives a report, and the same report wherever the constructor as written succeeds |
| HealthStatus.GuardedHubDown | src/main/java/com/cats/ir/hubhealth/HealthStatusBean.java:55-87 | with the guard, a hub that is down is reported as such and the service as unhealthy |
| HealthStatus.GuardedDispatcherDown | src/main/java/com/cats/ir/hubhealth/HealthStatusBean.java:55-87 | with the guard, a dispatcher that did not answer is reported with its remark and the service as unhealthy |
| HealthStatus.HealthStatusBean.constructor | src/main/java/com/cats/ir/hubhealth/HealthStatusBean.java:55-57 | the version map holds the service's version under "MS_VERSION", with no reports and not healthy |
| HealthStatus.HealthStatusBean.Aggregate | src/main/java/com/cats/ir/hubhealth/HealthStatusBean.java:58-86 | the rest of the constructor fails exactly when `StatusOf` does, and otherwise leaves exactly the status `StatusOf` describes |
| HealthStatus.HealthStatusBean.AddHubDevices | src/main/java/com/cats/ir/hubhealth/HealthStatusBean.java:70-75 | the loop adds one report per hub device, and any device that is not connected clears the healthy flag |
| HealthStatus.HealthStatusBean.AddGcDevices | src/main/java/com/cats/ir/hubhealth/HealthStatusBean.java:81-84 | the loop adds one report per dispatcher device, numbered from 1; at the first device with a null health or error list it throws NullPointerException, having added the reports of the devices before it |
| HealthStatus.NewHealthStatusBean | src/main/java/com/cats/ir/hubhealth/HealthStatusBean.java:55-87 | the construction fails, with a NullPointerException, exactly when a given bean has a null device list or a dispatcher device has a null health or error list; otherwise the bean holds the version and the status `StatusOf` describes |
| Dependencies.IsDispatcherType | src/main/java/com/cats/service/DependencyHealthCheck.java:43-52 | a dispatcher type has exactly five characters |
| Dependencies.DispatcherTypeIgnoringCase | src/main/java/com/cats/service/DependencyHealthCheck.java:43-52 | a type counts exactly when it equals "itach" or "gc100", ignoring case |
| Dependencies.SuffixedTypeNotDispatched | src/main/java/com/cats/service/DependencyHealthCheck.java:43-52 | "gc100_12" does not count as a dispatcher type |
| Dependencies.AnyDispatcher | src/main/java/com/cats/service/DependencyHealthCheck.java:43-52 | the stream can only fail with a NullPointerException |
| Dependencies.AnyDispatcherTrue | src/main/java/com/cats/service/DependencyHealthCheck.java:43-52 | the stream is true exactly when a dispatcher device comes before any device without a type |
| Dependencies.AnyDispatcherFalse | src/main/java/com/cats/service/DependencyHealthCheck.java:43-52 | the stream is false exactly when every device has a type and none is a dispatcher device |
| Dependencies.DependencyHealthCheck.constructor | src/main/java/com/cats/service/DependencyHealthCheck.java:36-37 | both flags start unset |
| Dependencies.DependencyHealthCheck.Init | src/main/java/com/cats/service/DependencyHealthCheck.java:43-52 | a failing normalisation or a device without a type fails with its exception and leaves both flags as they were; otherwise the dispatcher flag is the stream's answer and the hub flag says whether the hub host and port are both set |
| Dependencies.DependencyHealthCheck.CheckGCDispatcherHealth | src/main/java/com/cats/service/DependencyHealthCheck.java:54-56 | the dispatcher flag, or a NullPointerException while it is unset |
| Dependencies.DependencyHealthCheck.CheckHubHealth | src/main/java/com/cats/service/DependencyHealthCheck.java:58-60 | the hub flag, or a NullPointerException while it is unset |
| Dependencies.MatchAny | src/main/java/com/cats/service/DependencyHealthCheck.java:46-49 | the short-circuiting walk over the devices gives the stream's answer |
| Dependencies.InitThenCheck | src/main/java/com/cats/service/DependencyHealthCheck.java:43-60 | after a successful `init` the getters give the flags it computed; after a failed one both getters throw |
| Resources.JavaDiv | src/main/java/com/cats/resources/IRResource.java:243 | Java's integer division: the quotient has the dividend's sign (or is zero) and its magnitude is the magnitudes' quotient rounded down |
| Resources.GivenTwo | src/main/java/com/cats/resources/IRResource.java:544-553 | two arguments pass the check exactly when each is non-null and non-empty |
| Resources.GivenThree | src/main/java/com/cats/resources/IRResource.java:544-553 | likewise for three arguments |
| Resources.GivenFour | src/main/java/com/cats/resources/IRResource.java:544-553 | likewise for four arguments |
| Resources.IsStringArgValid | src/main/java/com/cats/resources/IRResource.java:544-553 | the loop answers true exactly when every argument is non-null and non-empty |
| Resources.Tokenize | src/main/java/com/cats/resources/IRResource.java:561-568 | the tokenizer loop hands out exactly the non-empty pieces between delimiters, in order |
| Resources.ScanTokens | src/main/java/com/cats/resources/IRResource.java:561-568 | the scan from any point gives the non-empty pieces of the token gathered so far followed by the rest of the input |
| Resources.DropEmptyFrom | src/main/java/com/cats/resources/IRResource.java:561-568 | every token is a piece of the input |
| Resources.DropEmptyKeeps | src/main/java/com/cats/resources/IRResource.java:561-568 | when no piece is empty, none is dropped |
| Resources.TokensShape | src/main/java/com/cats/resources/IRResource.java:561-568 | every token is non-empty and free of the delimiter |
| Resources.TokensOfJoin | src/main/java/com/cats/resources/IRResource.java:561-568 | non-empty, delimiter-free tokens joined by the delimiter tokenise back to the same list |
| Resources.TokensSkipDelimiter | src/main/java/com/cats/resources/IRResource.java:561-568 | a leading delimiter gives no token |
| Resources.TokensOfTerminated | src/main/java/com/cats/resources/IRResource.java:383-385 | a token followed by the delimiter, as the forwarded strings are built, tokenises to that one token |
| Resources.GetRemoteCommandList | src/main/java/com/cats/resources/IRResource.java:561-568 | the command list is the comma tokens of the argument, each non-empty and without a comma |
| Resources.ParseAll | src/main/java/com/cats/resources/IRResource.java:576-583 | parsing succeeds exactly when every token parses, gives one value per token in order, and otherwise fails with NumberFormatException |
| Resources.GetIntegerList | src/main/java/com/cats/resources/IRResource.java:576-583 | the loop gives `ParseAll` of the comma tokens |
| Resources.NoneAbove | src/main/java/com/cats/resources/IRResource.java:296-300 | the check passes exactly when no value is above the bound |
| Resources.RepeatCap | src/main/java/com/cats/resources/IRResource.java:65-67 | the cap is computed exactly when the read timeout is present and parses, and fails with NumberFormatException otherwise |
| Resources.RepeatCapOfDigits | src/main/java/com/cats/resources/IRResource.java:65-67 | a read timeout of t milliseconds in digits gives a cap of t / 100 - 30 |
| Resources.RepeatCapDefault | src/main/java/com/cats/resources/IRResource.java:60-66 | the read timeout of 15000 gives a cap of 120 |
| Resources.HoldCount | src/main/java/com/cats/resources/IRResource.java:197-202 | a hold time passes exactly when it is digits, within the int range and at most the cap, and passes as its value; non-digits are refused as not numeric and a value above the cap as too many repeats |
| Resources.ParseDigitsOrOverflow | src/main/java/com/cats/resources/IRResource.java:200 | digits parse exactly when their value is within the int range, and then to that value |
| Resources.ShortTimeoutRefusesHolds | src/main/java/com/cats/resources/IRResource.java:65-67 | a read timeout under 3000 ms gives a cap, and the cap refuses every hold time |
| Resources.KeysOf | src/main/java/com/cats/resources/IRResource.java:319-322 | one key per command, with the count and delay at its position |
| Resources.CustomKeys | src/main/java/com/cats/resources/IRResource.java:296-316 | the lists pass exactly when no count is above the cap, the command list is non-empty, the three lengths agree and no delay is above 30000 ms; each failed check gives its own refusal, in the source's order |
| Resources.ActOf | src/main/java/com/cats/resources/IRResource.java:324-328 | a positive count presses and holds the key; any other count presses it once |
| Resources.Sent | src/main/java/com/cats/resources/IRResource.java:319-340 | keys i to n - 1 are each sent and followed by a sleep of their delay |
| Resources.PressesAnswer | src/main/java/com/cats/resources/IRResource.java:319-345 | the loop answers true exactly when there were keys and every one was accepted with a delay `Thread.sleep` takes; it throws IllegalArgumentException exactly when an accepted key with a negative delay comes before any refusal |
| Resources.PressesStopAtFailure | src/main/java/com/cats/resources/IRResource.java:330-339 | the loop stops at the first key that does not go through: every earlier key was sent and slept after; a refused key was sent and the answer is false; a negative delay was asked for after its key and the loop throws IllegalArgumentException; nothing followed it |
| Resources.SendKeys | src/main/java/com/cats/resources/IRResource.java:319-340 | the loop's ending (answer or thrown IllegalArgumentException) and calls are those `Presses` describes |
| Resources.CustomListsSucceed | src/main/java/com/cats/resources/IRResource.java:292-346 | a custom sequence succeeds exactly when both number lists parse, the lists pass their checks, the remote accepts every command and no delay is negative |
| Resources.RunCustomLists | src/main/java/com/cats/resources/IRResource.java:292-346 | the lists, their checks and the key loop give the outcome and calls `CustomLists` describes, a negative delay ending it with IllegalArgumentException |
| Resources.CheckLists | src/main/java/com/cats/resources/IRResource.java:296-316 | the three checking loops give `CustomKeys` |
| Resources.LastEntryWins | src/main/java/com/cats/resources/IRResource.java:378-386 | when every entry is well formed, only the last entry's strings are forwarded |
| Resources.ForwardsOneKey | src/main/java/com/cats/resources/IRResource.java:382-385 | the forwarded strings tokenise to the last entry's command, count and delay, one each |
| Resources.ForwardedStrings | src/main/java/com/cats/resources/IRResource.java:374-386 | the loop gives the strings `LastEntry` describes, or the refusal or exception of the first bad entry |
| Resources.ForwardedNonEmpty | src/main/java/com/cats/resources/IRResource.java:374-386 | every forwarded string is non-empty |
| Resources.SlotReply | src/main/java/com/cats/resources/IRResource.java:206-210 | the slot controller answers 200 exactly when the remote accepted, never 500, with the body "true" or "false" |
| Resources.DeviceReply | src/main/java/com/cats/resources/IRDeviceResource.java:140-146 | the device controller answers 200 exactly when the remote accepted, never 400, with the body "true" or "false" |
| Resources.DurationBoundAsWritten | src/main/java/com/cats/resources/IRResource.java:242-246 | with the property unset, unboxing it throws a NullPointerException |
| Resources.DurationBound | src/main/java/com/cats/resources/IRResource.java:242-246 | the corrected check never throws: it passes or refuses the duration |
| Resources.UnsetTimeoutThrows | src/main/java/com/cats/resources/IRResource.java:242-246 | with the property unset the check as written throws, while the corrected one passes exactly the durations under 15 s |
| Resources.DurationBoundAgrees | src/main/java/com/cats/resources/IRResource.java:242-246 | with the property set, both checks agree, and pass exactly the durations below the timeout in whole seconds |
| Resources.SlotVerdict | src/main/java/com/cats/resources/IRResource.java:78-82 | the slot passes exactly when the lookup finds it; a slot with no device is refused and any other failure propagates |
| Resources.RemoteVerdict | src/main/java/com/cats/resources/IRResource.java:74-76 | the request stops exactly when no remote is obtained |
| Resources.IRResource.constructor | src/main/java/com/cats/resources/IRResource.java:55-62 | the controller holds its processor and the cap starts at 100 |
| Resources.IRResource.Init | src/main/java/com/cats/resources/IRResource.java:64-67 | start-up succeeds exactly when the read timeout parses, and then sets the cap to `RepeatCap`; otherwise it fails with NumberFormatException and leaves the cap |
| Resources.IRResource.ValidateSlot | src/main/java/com/cats/resources/IRResource.java:78-82 | the slot passes exactly when the processor maps it |
| Resources.IRResource.GetRemote | src/main/java/com/cats/resources/IRResource.java:74-76 | the processor's remote for the slot and key set |
| Resources.IRResource.Get | src/main/java/com/cats/resources/IRResource.java:97-101 | an invalid slot is refused; otherwise 200 with "IR [Rack=..., Slot=...]" |
| Resources.IRResource.PressKey | src/main/java/com/cats/resources/IRResource.java:116-137 | an invalid slot or a missing remote ends the request with nothing sent; otherwise the key is pressed once, and the answer gives 200 "true", 500 without a body, 400 "false" on IllegalArgumentException, or the exception |
| Resources.IRResource.PressKeys | src/main/java/com/cats/resources/IRResource.java:152-169 | after the slot and the remote, the command list is pressed once with the delay, and the answer gives the reply |
| Resources.IRResource.PressKeyAndHold | src/main/java/com/cats/resources/IRResource.java:183-212 | a missing argument is refused; the hold count is checked against the cap before the remote is obtained; then one press and hold with that count |
| Resources.IRResource.PressKeyAndHoldDuration | src/main/java/com/cats/resources/IRResource.java:225-256 | a missing argument or duration is refused; with the read timeout property unset the request throws NullPointerException; a duration at or past the timeout in whole seconds is refused; otherwise one timed hold is sent |
| Resources.IRResource.EnterCustomKeySequence | src/main/java/com/cats/resources/IRResource.java:276-347 | missing arguments are refused with nothing sent; otherwise the outcome and calls are those of the lists, their checks against the cap and the key loop |
| Resources.IRResource.CustomKeySequenceWithRemote | src/main/java/com/cats/resources/IRResource.java:292-346 | after the argument check: the remote, then the outcome and calls `CustomLists` describes with the cap, where a negative delay throws IllegalArgumentException out of the request |
| Resources.IRResource.EnterRemoteCommandSequence | src/main/java/com/cats/resources/IRResource.java:362-389 | a missing or empty list or key set is refused; a bad entry stops the request; otherwise the last entry's strings go through the custom sequence |
| Resources.IRResource.Tune | src/main/java/com/cats/resources/IRResource.java:403-433 | the channel and delay must be given and the delay must be digits; the remote then tunes with the parsed auto-tune flag and delay |
| Resources.IRResource.SendText | src/main/java/com/cats/resources/IRResource.java:450-476 | the key set and text must be given and the text digits; the remote then enters the text |
| Resources.IRResource.SendIR | src/main/java/com/cats/resources/IRResource.java:490-494 | an invalid slot is refused; any valid slot answers false and sends nothing |
| Resources.IRResource.Seq | src/main/java/com/cats/resources/IRResource.java:513-536 | the key set and shorthand must be given; the shorthand's keys are pressed with the delay between them |
| Resources.TunedWithinBound | src/main/java/com/cats/resources/IRResource.java:403-433 | a tune that reaches the remote had a delay of digits within the remote's bound, and sent exactly one tune call |
| Resources.IRDeviceResource.constructor | src/main/java/com/cats/resources/IRDeviceResource.java:60-62 | the controller holds its processor |
| Resources.IRDeviceResource.ValidateDeviceAndPort | src/main/java/com/cats/resources/IRDeviceResource.java:78-92 | a device that is not a number throws; a device outside the list is refused; a port that is not a number throws; otherwise the pair passes exactly when the port is within the device's port count |
| Resources.IRDeviceResource.GetRemote | src/main/java/com/cats/resources/IRDeviceResource.java:74-76 | the processor's remote for the parsed device and port |
| Resources.IRDeviceResource.Get | src/main/java/com/cats/resources/IRDeviceResource.java:106-110 | an invalid pair is refused; otherwise 200 with "IR [Device=..., Port=...]" |
| Resources.IRDeviceResource.PressKey | src/main/java/com/cats/resources/IRDeviceResource.java:128-147 | after the pair and the remote, one key press, answered 200 "true" or 500 "false" |
| Resources.IRDeviceResource.PressKeys | src/main/java/com/cats/resources/IRDeviceResource.java:166-184 | after the pair and the remote, the command list is pressed once with the delay |
| Resources.IRDeviceResource.PressKeyAndHold | src/main/java/com/cats/resources/IRDeviceResource.java:203-232 | the hold time must be digits, with no cap, and is parsed only after the remote is obtained |
| Resources.IRDeviceResource.PressKeyAndHoldDuration | src/main/java/com/cats/resources/IRDeviceResource.java:251-281 | a missing argument or duration is refused; the duration is not checked against any timeout |
| Resources.IRDeviceResource.EnterCustomKeySequence | src/main/java/com/cats/resources/IRDeviceResource.java:302-369 | as on the slot controller, with no cap on the counts and a failed press answered 500 |
| Resources.IRDeviceResource.CustomKeySequenceWithRemote | src/main/java/com/cats/resources/IRDeviceResource.java:318-368 | after the argument check: the remote, then the outcome and calls `CustomLists` describes without a cap, where a negative delay throws IllegalArgumentException out of the request |
| Resources.IRDeviceResource.EnterRemoteCommandSequence | src/main/java/com/cats/resources/IRDeviceResource.java:389-414 | the last entry's strings, through the custom sequence |
| Resources.IRDeviceResource.Tune | src/main/java/com/cats/resources/IRDeviceResource.java:434-465 | as on the slot controller, with a refused tune answered 500 |
| Resources.IRDeviceResource.SendText | src/main/java/com/cats/resources/IRDeviceResource.java:483-510 | the key set and text must be given and the text digits |
| Resources.IRDeviceResource.SendIR | src/main/java/com/cats/resources/IRDeviceResource.java:528-532 | an invalid pair is refused; any valid pair answers false |
| Resources.IRDeviceResource.Seq | src/main/java/com/cats/resources/IRDeviceResource.java:552-576 | the shorthand's keys pressed with the delay between them |

## Left out

- Sockets, telnet streams and HTTP connections are not modelled. A communicator's `connect`/`sendCommand` results, the dispatcher's response body and the hub's lines come from scripts in `Oracle`. `TcpConnection.java` and the socket code of `TelnetConnection.java` and `RedRatHubCommunicator.java` are not part of this model.
- `Thread.sleep` is not executed. Each sleep is recorded as an entry in a trace, and time itself is not modelled.
- The third-party object pool is not modelled; it is simplified to a queue of idle handles plus a count of handles made. A borrow takes an idle handle, else makes one while fewer than `maxTotal` exist, else fails as a `PoolException` would. There is no blocking wait, no timeout and no idle eviction.
- `synchronized`, `AtomicLong` and concurrent borrowing are not modelled; every operation runs sequentially.
- Some inputs the code reads from files, the classpath or system properties become parameters:
  - the pool size properties;
  - the manifest's `Implementation-Version`;
  - the `readrat.read.timeout` system property;
  - the hub read timeout.
- `SlotMappingService` loading from and saving to files is not modelled; only its in-memory effects are.
- `GCDispatcherUtil.readResponse` copies timing headers with `OffsetDateTime.parse`, which would throw on a missing header. Header copying is not part of this model.
- The regular expressions are hand-written predicates, with ASCII digits only:
  - `\d{1,4}` for channels;
  - `\d+` for hold times and text;
  - the hub device-list line pattern.
- Logging is not modelled, except for the borrows that `HubHealthCheck.sendCommand`'s error log makes (`getConnection()` for the host and again for the port), which change the pool and can fail.
- Spring and Swagger wiring, `ResponseEntity`/`Response` building and JSON serialisation are not modelled. A controller's answer is a `Reply` (status and body), a refusal (`CustomBadRequestException`) or a thrown exception.
- Each controller request takes the remote's answer as a parameter rather than running the remote. `RemoteProcessor.getRemote` yields a `RemoteRequest` that names the port, the family and the key set, not a `LocalRemote` object.
- Beans and data objects are Dafny values: `HubHealthBean`, `GCDeviceBean`, `RedRatDeviceBean`, `HealthReport` and the GC dispatcher beans.
- `ScriptResource.java`, `SlotMappingResource.java`, `HubHealthResource.java`, `MeasureTimeAdvice.java`, `GCDispatcherService.java` and `LocalRemoteFactory.java` are not part of this model. They are thin delegation, scripting or aspects.
- Java `Integer` mode values are compared by value (1 and 2 are cached boxes, so `==` agrees with `equals`).
- Commands.CatsCommand.Add: requires the added tree to share no command with the receiver. The Java code accepts a cycle or a shared child, and iteration would then loop or share cursors.
- Translators.IrNetBoxExact, Translators.ITachExact and the other exact-output lemmas: require that substituted values contain no '<'. Chained `String.replace` would otherwise substitute into text that an earlier replacement inserted. `Translators.IrNetBoxCommand` and the other translator functions themselves have no such restriction.
- Resources.IRResource.EnterCustomKeySequence and the other controller methods: an exception thrown by the remote inside the key loop is not modelled. The loop's presses answer through a function from index to bool.
- JavaText.ParseInt, JavaText.ToUpper and JavaText.EqualsIgnoreCase: ASCII only. `Integer.parseInt` also accepts the decimal digits of other scripts (for example Arabic-Indic digits). `toUpperCase` uses the default locale, so a Turkish locale turns "itach" into "İTACH". `equalsIgnoreCase` also folds non-ASCII letters. The model does none of these.
- HubHealth.MatchLine: `MatchParts` reads the device-line pattern `(\[.+\]).+(\(.+\))\sat\s(.+)` as a line that starts with '[', a type up to the first ']', and a mac ending at the first ") at ". `Matcher.find()` differs on other lines, and the model does not capture:
  - text before the '[', which `find()` skips;
  - a second ']' (as in "[a] [b] (m) at ip"), where greedy matching takes the type up to the last ']';
  - a repeated "(x) at " (as in "[t] (m) at a (n) at b"), where greedy matching takes the last one;
  - a tab or other `\s` character around "at", where the model needs spaces.
- Remote.LocalRemote.PressHold: requires a mode of 1 or 2. The callers in `LocalRemote` only pass those constants.
- HealthCheck.HubHealthCheck.Process, AskHeader, AskDevices, ListDevices, Survey, QueryDevices and QueryDevice: the bean is given outright from the hub's lines (`Report`, `Header`, `Listed`, `Queried`) only for a pool that lends one communicator again and again (`Solo`: one idle communicator, or none idle and room to make one) and whose reads do not fail. With several idle communicators each query goes to the next one in the queue. The answers then depend on how the hub's lines are split among them. For those pools the contracts state the bean against the answers received, and `Ask`/`AskWithIp` state each answer as the lent communicator's `Exchange`.
- Processor.RemoteProcessor.Init: `GCDispatcherConfig.writeGCDispatcherConfigYaml`, called when `gcDispatcherApiBase` is set, is not modelled. Neither is the `IOException` that writing the YAML file can throw (RemoteProcessor.java:53-55). The model's `init` always succeeds once normalisation does.
- Processor.RemoteProcessor.NumSlots, Processor.SumPorts, Processor.Locate, Processor.LocateComplete and Processor.SlotInRangeGetsRemote: port counts are summed as unbounded integers. Java adds `getMaxPorts()` into an `int` in `numSlots` and subtracts it from an `int` in `getRemote`, so totals above 2147483647 wrap (two devices of 2147483647 ports give -2). The model assumes the configured port counts sum within `int` range.
- Java `null` values that the model's types cannot hold are not modelled:
  - a null value in the slot-mapping table, where `isValidMapping` would throw a `NullPointerException` (`Slots`);
  - a null pattern passed to `readUntil` (`Telnet.ReadUntil`);
  - the one-argument `LocalRemote(IRDevicePort)` constructor, which leaves `remoteType` null; only the two-argument constructor is modelled.

## Findings

| source | as written | input that shows it | evidently intended | confidence | as-written member | corrected member |
|---|---|---|---|---|---|---|
| src/main/java/com/cats/ir/hubhealth/HealthStatusBean.java:70 | the hub bean's device list is iterated without a null check, and `HubHealthCheck.process` leaves it null when the hub is down | a hub bean with no device list and `hubUp` false | report the hub as down and the service as unhealthy | not executed | HealthStatus.HubDownFails | HealthStatus.GuardedHubDown |
| src/main/java/com/cats/ir/hubhealth/HealthStatusBean.java:82 | `getResult().getGCDevices()` dereferences a null result and throws NullPointerException, so the "Did not receive health status" remark that `HealthReport` (HealthReport.java:88) sets for a null result is never reached | a dispatcher bean with no result | report the dispatcher as down with its remark | not executed | HealthStatus.DispatcherDownFails | HealthStatus.GuardedDispatcherDown |
| src/main/java/com/cats/resources/IRResource.java:242 | `Integer.getInteger("readrat.read.timeout")` is unboxed with no default | the property unset, any duration | the 15000 ms default that `TelnetConnection` uses for the same property; the controller `Resources.IRResource.PressKeyAndHoldDuration` keeps the check as written | not executed | Resources.UnsetTimeoutThrows | Resources.DurationBoundAgrees |
