/**
 * The telnet helpers under the RedRat hub communicator.
 *
 * `MeasuredTelnetUtil.readUntil` frames the hub's answer: it reads lines
 * until a rule says the answer is complete. `TelnetUtil` wraps a telnet
 * connection in two bounded retry loops, one for `connect` and one for
 * `sendCommand`. The connection itself is an oracle: what `connect` and
 * `sendCommand` do is read from scripts, and every sleep and transmission
 * is recorded in a trace.
 */
module Telnet {
  import opened Wrappers
  import opened JavaText
  import opened Oracle

  // ------------------------------------------------ MeasuredTelnetUtil.readUntil

  /** What one line does to the answer being built: it completes it, or reading goes on. */
  datatype Rule = Done(text: string) | More(text: string, jsonLike: bool)

  /** The rule chain of the read loop for one line, in the order the code tries the rules. */
  function Absorb(str: string, jsonLike: bool, line: string, pattern: string): (r: Rule)
    ensures line == "OK" ==> r == Done("OK")
    ensures r.More? ==> r.text == str + line || r.text == str + line + "\n"
  {
    var s := str + line;
    if line == "OK" then Done("OK")
    else if Contains(line, "{") then More(s + "\n", true)
    else if Contains(line, "}") then Done(s)
    else if !jsonLike && EndsWith(line, ")") then Done(s)
    else if jsonLike then More(s + "\n", jsonLike)
    else if !jsonLike && StartsWith(line, "Failed") then Done(s)
    else if EqualsIgnoreCase(pattern, "LINE") then Done(s)
    else More(s, jsonLike)
  }

  /**
   * The answer `readUntil` returns for the lines still to come, given the text
   * so far (None while no line was read), and how many lines it consumes.
   */
  function Frame(lines: seq<string>, pattern: string, str: Option<string>, jsonLike: bool): (r: (Option<string>, nat))
    ensures r.1 <= |lines|
    ensures r.0.Some? <==> str.Some? || |lines| > 0
    ensures |lines| > 0 ==> r.1 > 0
    decreases |lines|
  {
    if lines == [] then (str, 0)
    else
      match Absorb(if str.Some? then str.value else "", jsonLike, lines[0], pattern)
      case Done(s) => (Some(s), 1)
      case More(s, j) =>
        var (res, n) := Frame(lines[1..], pattern, Some(s), j);
        (res, n + 1)
  }

  /**
   * `readUntil(is, pattern)` over the lines the stream will deliver (None: a
   * null stream). It returns the framed answer and the number of lines read.
   */
  method ReadUntil(input: Option<seq<string>>, pattern: string) returns (r: Result<Option<string>>, used: nat)
    ensures input.None? ==> r == Err(IOError) && used == 0
    ensures input.Some? ==> r == Ok(Frame(input.value, pattern, None, false).0) && used == Frame(input.value, pattern, None, false).1
  {
    if input.None? {
      return Err(IOError), 0;
    }
    var lines := input.value;
    var str: Option<string> := None;
    var jsonLike := false;
    used := 0;
    while used < |lines|
      invariant used <= |lines|
      invariant Frame(lines, pattern, None, false) ==
        (var (res, n) := Frame(lines[used..], pattern, str, jsonLike); (res, n + used))
      decreases |lines| - used
    {
      var line := lines[used];
      var rule := Absorb(if str.Some? then str.value else "", jsonLike, line, pattern);
      used := used + 1;
      if rule.Done? {
        str := Some(rule.text);
        return Ok(str), used;
      }
      str := Some(rule.text);
      jsonLike := rule.jsonLike;
    }
    r := Ok(str);
  }

  // ---------------------------------------------------------- framing facts

  /** Nothing in the line triggers a rule of its own. */
  predicate Plain(line: string)
  {
    line != "OK" && !Contains(line, "{") && !Contains(line, "}") && !EndsWith(line, ")") && !StartsWith(line, "Failed")
  }

  function Concat(lines: seq<string>): string
    decreases |lines|
  {
    if lines == [] then "" else lines[0] + Concat(lines[1..])
  }

  /**
   * With a pattern other than "LINE" and plain lines only, every line is read
   * and the answer is their concatenation with no separator.
   */
  lemma {:induction false} PlainLinesConcatenate(lines: seq<string>, pattern: string, str: string)
    requires !EqualsIgnoreCase(pattern, "LINE")
    requires forall i :: 0 <= i < |lines| ==> Plain(lines[i])
    ensures Frame(lines, pattern, Some(str), false) == (Some(str + Concat(lines)), |lines|)
    decreases |lines|
  {
    if lines != [] {
      PlainStep(str, lines[0], pattern);
      assert forall i :: 0 <= i < |lines[1..]| ==> Plain(lines[1..][i]) by {
        forall i | 0 <= i < |lines[1..]| ensures Plain(lines[1..][i]) {
          assert lines[1..][i] == lines[i + 1];
        }
      }
      PlainLinesConcatenate(lines[1..], pattern, str + lines[0]);
      FrameMore(lines, pattern, Some(str), false);
      assert Concat(lines) == lines[0] + Concat(lines[1..]);
      assert str + lines[0] + Concat(lines[1..]) == str + Concat(lines);
    } else {
      assert str + Concat(lines) == str;
    }
  }

  /** A line that does not complete the answer: reading goes on with the next one. */
  lemma FrameMore(lines: seq<string>, pattern: string, str: Option<string>, jsonLike: bool)
    requires lines != [] && Absorb(if str.Some? then str.value else "", jsonLike, lines[0], pattern).More?
    ensures var a := Absorb(if str.Some? then str.value else "", jsonLike, lines[0], pattern);
      var rest := Frame(lines[1..], pattern, Some(a.text), a.jsonLike);
      Frame(lines, pattern, str, jsonLike) == (rest.0, rest.1 + 1)
  {
  }

  lemma PlainStep(str: string, line: string, pattern: string)
    requires !EqualsIgnoreCase(pattern, "LINE") && Plain(line)
    ensures Absorb(str, false, line, pattern) == More(str + line, false)
  {
  }

  /**
   * A "LINE" pattern reads exactly one line, unless that line opens a block
   * with "{"; the answer is that line (an "OK" line is "OK" anyway).
   */
  lemma LinePatternReadsOne(lines: seq<string>, pattern: string)
    requires EqualsIgnoreCase(pattern, "LINE") && |lines| > 0 && !Contains(lines[0], "{")
    ensures Frame(lines, pattern, None, false) == (Some(lines[0]), 1)
  {
    assert "" + lines[0] == lines[0];
  }

  /** Inside a block, a line neither "OK" nor holding a brace is kept followed by a newline. */
  predicate Inner(line: string)
  {
    line != "OK" && !Contains(line, "{") && !Contains(line, "}")
  }

  /** Joining with "\n" after every line, the last one included. */
  function Lines(ls: seq<string>): string
    decreases |ls|
  {
    if ls == [] then "" else ls[0] + "\n" + Lines(ls[1..])
  }

  /**
   * A block: once inside one, inner lines are kept one per line and the line
   * holding "}" completes the answer, whatever the pattern (so "LINE" never
   * stops a block early).
   */
  lemma {:induction false} BlockFrames(body: seq<string>, close: string, rest: seq<string>, pattern: string, str: string)
    requires forall i :: 0 <= i < |body| ==> Inner(body[i])
    requires close != "OK" && !Contains(close, "{") && Contains(close, "}")
    ensures Frame(body + [close] + rest, pattern, Some(str), true) == (Some(str + Lines(body) + close), |body| + 1)
    decreases |body|
  {
    var all := body + [close] + rest;
    if body == [] {
      assert all[0] == close;
      assert Absorb(str, true, close, pattern) == Done(str + close);
      assert str + Lines(body) + close == str + close;
    } else {
      var s1 := str + body[0] + "\n";
      var next := Frame(all[1..], pattern, Some(s1), true);
      assert next == (Some(s1 + Lines(body[1..]) + close), |body|) by {
        assert all[1..] == body[1..] + [close] + rest;
        BlockFrames(body[1..], close, rest, pattern, s1);
      }
      assert Frame(all, pattern, Some(str), true) == (next.0, next.1 + 1) by {
        assert all[0] == body[0];
        assert Absorb(str, true, body[0], pattern) == More(s1, true);
        FrameMore(all, pattern, Some(str), true);
      }
      assert s1 + Lines(body[1..]) + close == str + Lines(body) + close by {
        assert Lines(body) == body[0] + "\n" + Lines(body[1..]);
      }
    }
  }

  /** A whole `{ ... }` answer opened on the first line is kept with its line breaks. */
  lemma JsonAnswer(first: string, body: seq<string>, close: string, rest: seq<string>, pattern: string)
    requires first != "OK" && Contains(first, "{")
    requires forall i :: 0 <= i < |body| ==> Inner(body[i])
    requires close != "OK" && !Contains(close, "{") && Contains(close, "}")
    ensures Frame([first] + body + [close] + rest, pattern, None, false) == (Some(Lines([first] + body) + close), |body| + 2)
  {
    var all := [first] + body + [close] + rest;
    assert all[1..] == body + [close] + rest;
    assert "" + first + "\n" == first + "\n";
    BlockFrames(body, close, rest, pattern, first + "\n");
    assert Lines([first] + body) == first + "\n" + Lines(body) by {
      assert ([first] + body)[1..] == body;
    }
  }

  /** An "OK" line makes the answer exactly "OK", dropping everything read before it, even inside a block. */
  lemma OkOverrides(line: string, rest: seq<string>, pattern: string, str: Option<string>, jsonLike: bool)
    requires line == "OK"
    ensures Frame([line] + rest, pattern, str, jsonLike) == (Some("OK"), 1)
  {
  }

  // --------------------------------------------------------- the connection

  /** What `connect(false)` did: returned a value, or threw an IOException (None). */
  type Connect = Option<bool>

  /** The connection as the retry loops see it. */
  datatype Link = Link(connects: seq<Connect>, replies: seq<Reply>, closes: nat, trace: seq<Event>)

  const ERROR_STRING: string := "Error Occurred : "
  const NULL_ARGUMENTS: string := "TelnetConnection or command String should not be null. TelnetConnection : "
  const NULL_RESULT: string := "sendCommand returned null. Maybe telnet connection is not in connected state."
  const CONNECT_WAIT: int := 600
  const CONNECT_ATTEMPTS: int := 3
  const SEND_ATTEMPTS: int := 2

  /**
   * A telnet connection whose `connect` and `sendCommand` outcomes come from
   * scripts; an exhausted script throws. `display` is what `toString` gives.
   */
  class Connection {
    const display: string
    var connects: seq<Connect>
    var replies: seq<Reply>
    var closes: nat
    var trace: seq<Event>

    constructor (display: string, connects: seq<Connect>, replies: seq<Reply>)
      ensures this.display == display && Snap() == Link(connects, replies, 0, [])
    {
      this.display := display;
      this.connects := connects;
      this.replies := replies;
      this.closes := 0;
      this.trace := [];
    }

    function Snap(): Link
      reads this
    {
      Link(connects, replies, closes, trace)
    }

    method Connect() returns (r: Connect)
      modifies this
      ensures (r, Snap()) == LinkConnect(old(Snap()))
    {
      r := Head(connects, None);
      connects := Tail(connects);
    }

    method SendCommand(command: string) returns (r: Reply)
      modifies this
      ensures (r, Snap()) == LinkSend(old(Snap()), command)
    {
      r := Head(replies, Broken(""));
      replies := Tail(replies);
      trace := trace + [Sent(command)];
    }

    method CloseConnection()
      modifies this
      ensures Snap() == old(Snap()).(closes := old(closes) + 1)
    {
      closes := closes + 1;
    }

    method Sleep(ms: int)
      modifies this
      ensures Snap() == old(Snap()).(trace := old(trace) + [Slept(ms)])
    {
      trace := trace + [Slept(ms)];
    }
  }

  function LinkConnect(l: Link): (Connect, Link)
  {
    (Head(l.connects, None), l.(connects := Tail(l.connects)))
  }

  function LinkSend(l: Link, command: string): (Reply, Link)
  {
    (Head(l.replies, Broken("")), l.(replies := Tail(l.replies), trace := l.trace + [Sent(command)]))
  }

  // ------------------------------------------------ TelnetUtil.connectTelnet

  /** The connect loop from attempt `retries` on: the value returned and the connection afterwards. */
  function ConnectLoop(l: Link, retries: nat): (r: (bool, Link))
    requires retries < CONNECT_ATTEMPTS
    ensures r.1.replies == l.replies && r.1.closes == l.closes
    decreases CONNECT_ATTEMPTS - retries
  {
    var (out, l1) := LinkConnect(l);
    match out
    case Some(b) => (b, l1)
    case None =>
      var l2 := l1.(trace := l1.trace + [Slept(CONNECT_WAIT)]);
      if retries + 1 < CONNECT_ATTEMPTS then ConnectLoop(l2, retries + 1) else (false, l2)
  }

  /** `connectTelnet(telnetConnection)`. */
  method ConnectTelnet(conn: Connection?) returns (r: bool)
    modifies conn
    ensures conn == null ==> !r
    ensures conn != null ==> (r, conn.Snap()) == ConnectLoop(old(conn.Snap()), 0)
  {
    r := false;
    if conn == null {
      return;
    }
    var retries := 0;
    var tryRetry := true;
    while true
      invariant 0 <= retries < CONNECT_ATTEMPTS
      invariant ConnectLoop(old(conn.Snap()), 0) == ConnectLoop(conn.Snap(), retries)
      decreases CONNECT_ATTEMPTS - retries
    {
      var out := conn.Connect();
      if out.Some? {
        r := out.value;
        return;
      }
      retries := retries + 1;
      conn.Sleep(CONNECT_WAIT);
      if retries >= CONNECT_ATTEMPTS {
        return;
      }
    }
  }

  /** Failures: the connection never answers within the three attempts. */
  predicate Refuses(l: Link, k: nat)
  {
    forall i :: 0 <= i < k && i < |l.connects| ==> l.connects[i].None?
  }

  /** When the first answer comes at attempt `k`, it is returned after `k` waits. */
  lemma {:induction false} ConnectAnswers(l: Link, retries: nat, k: nat)
    requires retries + k < CONNECT_ATTEMPTS && k < |l.connects| && l.connects[k].Some? && Refuses(l, k)
    ensures ConnectLoop(l, retries).0 == l.connects[k].value
    ensures ConnectLoop(l, retries).1.trace == l.trace + Waits(k)
    ensures ConnectLoop(l, retries).1.connects == l.connects[k + 1..]
    decreases k
  {
    if k > 0 {
      var l2 := l.(connects := l.connects[1..], trace := l.trace + [Slept(CONNECT_WAIT)]);
      assert Refuses(l2, k - 1) by {
        forall i | 0 <= i < k - 1 && i < |l2.connects| ensures l2.connects[i].None? {
          assert l2.connects[i] == l.connects[i + 1];
        }
      }
      ConnectAnswers(l2, retries + 1, k - 1);
      assert l.connects[1..][k..] == l.connects[k + 1..];
      assert l.trace + [Slept(CONNECT_WAIT)] + Waits(k - 1) == l.trace + Waits(k);
    }
  }

  /** `k` waits of `CONNECT_WAIT` ms. */
  function Waits(k: nat): (r: seq<Event>)
    ensures |r| == k && forall i :: 0 <= i < k ==> r[i] == Slept(CONNECT_WAIT)
  {
    if k == 0 then [] else [Slept(CONNECT_WAIT)] + Waits(k - 1)
  }

  /** Three failures in a row: false, after three waits. */
  lemma {:induction false} ConnectGivesUp(l: Link, retries: nat)
    requires retries < CONNECT_ATTEMPTS && Refuses(l, CONNECT_ATTEMPTS - retries)
    ensures ConnectLoop(l, retries).0 == false
    ensures ConnectLoop(l, retries).1.trace == l.trace + Waits(CONNECT_ATTEMPTS - retries)
    decreases CONNECT_ATTEMPTS - retries
  {
    var l2 := l.(connects := Tail(l.connects), trace := l.trace + [Slept(CONNECT_WAIT)]);
    assert Head(l.connects, None).None?;
    if retries + 1 < CONNECT_ATTEMPTS {
      assert Refuses(l2, CONNECT_ATTEMPTS - retries - 1) by {
        forall i | 0 <= i < CONNECT_ATTEMPTS - retries - 1 && i < |l2.connects| ensures l2.connects[i].None? {
          assert l2.connects[i] == l.connects[i + 1];
        }
      }
      ConnectGivesUp(l2, retries + 1);
      assert l.trace + [Slept(CONNECT_WAIT)] + Waits(CONNECT_ATTEMPTS - retries - 1) == l.trace + Waits(CONNECT_ATTEMPTS - retries);
    }
  }

  // --------------------------------------------- TelnetUtil.sendTelnetCommand

  /**
   * The send loop from attempt `retries` on, with the text built so far: an
   * answer ends it, a null answer is the error string, an IOException closes,
   * reconnects and appends its message.
   */
  function SendLoop(l: Link, command: string, retries: nat, retVal: string): (r: (string, Link))
    requires retries < SEND_ATTEMPTS
    decreases SEND_ATTEMPTS - retries
  {
    var (rep, l1) := LinkSend(l, command);
    match rep
    case Text(s) => (s, l1)
    case Absent => (ERROR_STRING + NULL_RESULT, l1)
    case Broken(m) =>
      var (_, l3) := ConnectLoop(l1.(closes := l1.closes + 1), 0);
      if retries + 1 < SEND_ATTEMPTS then SendLoop(l3, command, retries + 1, retVal + m) else (retVal + m, l3)
  }

  /** `sendTelnetCommand(telnetConnection, command, promptString)`; None stands for null. */
  method SendTelnetCommand(conn: Connection?, command: Option<string>) returns (r: string)
    modifies conn
    ensures conn == null ==> r == ERROR_STRING + NULL_ARGUMENTS + "null" + " Command : " + (if command.Some? then command.value else "null")
    ensures conn != null && command.None? ==> r == ERROR_STRING + NULL_ARGUMENTS + conn.display + " Command : null" && conn.Snap() == old(conn.Snap())
    ensures conn != null && command.Some? ==> (r, conn.Snap()) == SendLoop(old(conn.Snap()), command.value, 0, ERROR_STRING)
  {
    r := ERROR_STRING;
    if conn == null || command.None? {
      r := r + NULL_ARGUMENTS + (if conn == null then "null" else conn.display) + " Command : " + (if command.Some? then command.value else "null");
      return;
    }
    var retries := 0;
    while true
      invariant 0 <= retries < SEND_ATTEMPTS
      invariant SendLoop(old(conn.Snap()), command.value, 0, ERROR_STRING) == SendLoop(conn.Snap(), command.value, retries, r)
      decreases SEND_ATTEMPTS - retries
    {
      var rep := conn.SendCommand(command.value);
      if rep.Text? {
        r := rep.text;
        return;
      } else if rep.Absent? {
        r := ERROR_STRING + NULL_RESULT;
        return;
      }
      conn.CloseConnection();
      var _ := ConnectTelnet(conn);
      r := r + rep.message;
      retries := retries + 1;
      if retries >= SEND_ATTEMPTS {
        return;
      }
    }
  }

  /** The command is transmitted at most twice, and the answer, if any, is returned as it came. */
  lemma SendFirstAnswer(l: Link, command: string, s: string)
    requires |l.replies| > 0 && l.replies[0] == Text(s)
    ensures SendLoop(l, command, 0, ERROR_STRING) == (s, l.(replies := l.replies[1..], trace := l.trace + [Sent(command)]))
  {
  }

  /** Two IOExceptions: the error string followed by both messages, after two reconnect rounds. */
  lemma SendGivesUp(l: Link, command: string, m0: string, m1: string)
    requires |l.replies| >= 2 && l.replies[0] == Broken(m0) && l.replies[1] == Broken(m1)
    ensures SendLoop(l, command, 0, ERROR_STRING).0 == ERROR_STRING + m0 + m1
    ensures SendLoop(l, command, 0, ERROR_STRING).1.closes == l.closes + 2
    ensures SendLoop(l, command, 0, ERROR_STRING).1.replies == l.replies[2..]
  {
    var (_, l1) := LinkSend(l, command);
    var (_, l3) := ConnectLoop(l1.(closes := l1.closes + 1), 0);
    assert l3.replies == l.replies[1..];
    assert l3.replies[0] == Broken(m1);
    assert l.replies[1..][1..] == l.replies[2..];
  }

  /** A failure followed by an answer: the answer alone, the failure's message dropped. */
  lemma SendRecovers(l: Link, command: string, m0: string, s: string)
    requires |l.replies| >= 2 && l.replies[0] == Broken(m0) && l.replies[1] == Text(s)
    ensures SendLoop(l, command, 0, ERROR_STRING).0 == s
    ensures SendLoop(l, command, 0, ERROR_STRING).1.closes == l.closes + 1
  {
    var (_, l1) := LinkSend(l, command);
    var (_, l3) := ConnectLoop(l1.(closes := l1.closes + 1), 0);
    assert l3.replies == l.replies[1..];
    assert l3.replies[0] == Text(s);
  }
}
