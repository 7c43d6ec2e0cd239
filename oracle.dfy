/**
 * The world outside the command layer, as an oracle. A RedRat hub is reached
 * through pooled communicators whose `connect` and `sendCommand` results are
 * read from scripts; Global Caché dispatch is an HTTP POST whose response
 * body is read from a script; `Thread.sleep` and every transmission are
 * recorded in a trace. A script that has run out answers like a failure:
 * no communicator, an IOException.
 */
module Oracle {
  import opened Wrappers

  /** What `IRCommunicator.sendCommand` did: returned a string, returned null, or threw an IOException. */
  datatype Reply = Text(text: string) | Absent | Broken(message: string)

  datatype Event = Sent(command: string) | Slept(ms: int) | Posted(url: string)

  datatype Env = Env(
    grants: seq<bool>,                 // does the manager hand out a communicator (false: null)
    connects: seq<bool>,               // does `connect(false)` return normally (false: IOException)
    replies: seq<Reply>,               // answers to `sendCommand`, in order
    bodies: seq<Option<seq<string>>>,  // HTTP response lines, None for an IOException
    trace: seq<Event>,
    borrowed: int)                     // communicators taken from the pool and not yet returned

  function Head<T>(s: seq<T>, otherwise: T): T
  {
    if |s| > 0 then s[0] else otherwise
  }

  function Tail<T>(s: seq<T>): seq<T>
  {
    if |s| > 0 then s[1..] else []
  }

  /** `communicatorManager.getCommunicator(device)`: true when a pooled communicator was handed out. */
  function Acquire(e: Env): (bool, Env)
  {
    var g := Head(e.grants, false);
    (g, e.(grants := Tail(e.grants), borrowed := if g then e.borrowed + 1 else e.borrowed))
  }

  /** `passivateCommunicator`: returning null to the pool does nothing. */
  function Release(e: Env, held: bool): Env
  {
    if held then e.(borrowed := e.borrowed - 1) else e
  }

  /** `communicator.connect(false)`: true when it returned without an IOException. */
  function Connect(e: Env): (bool, Env)
  {
    (Head(e.connects, false), e.(connects := Tail(e.connects)))
  }

  /** `communicator.sendCommand(command)`. */
  function Transmit(e: Env, command: string): (Reply, Env)
  {
    (Head(e.replies, Broken("")), e.(replies := Tail(e.replies), trace := e.trace + [Sent(command)]))
  }

  /** The answer the `i`-th next transmission will get. */
  function ReplyAt(e: Env, i: nat): Reply
  {
    if i < |e.replies| then e.replies[i] else Broken("")
  }

  /** `Thread.sleep(ms)`. */
  function Pause(e: Env, ms: int): Env
  {
    e.(trace := e.trace + [Slept(ms)])
  }

  /** An HTTP POST to `url`, with the response lines it reads (None for an IOException). */
  function Post(e: Env, url: string): (Option<seq<string>>, Env)
  {
    (Head(e.bodies, None), e.(bodies := Tail(e.bodies), trace := e.trace + [Posted(url)]))
  }
}
