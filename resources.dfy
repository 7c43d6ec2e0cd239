/**
 * The two REST controllers that drive the remotes: `IRResource`, which
 * addresses a remote by slot, and `IRDeviceResource`, which addresses it by
 * device and port. What they add over the remotes is the checking of the
 * request (which request is refused with a 400, and in which order), the
 * parsing of comma-separated lists, and the loop of a custom key sequence.
 * The remote a controller obtains is named by a `Processor.RemoteRequest`;
 * what the remote answers is a parameter, and what the controller asks of
 * it is returned as a list of `Call`s.
 */
module Resources {
  import opened Wrappers
  import opened JavaText
  import Config
  import Processor
  import Remote
  import Shorthand

  const MAX_DELAY: int := 30 * 1000
  const REPEATCOUNT_READTIMEOUT_OFFSET: int := 30
  /** `MAX_REPEAT_COUNT` before `init` runs. */
  const INITIAL_MAX_REPEAT_COUNT: int := 100
  /** The default `TelnetConnection` gives the read-timeout system property. */
  const DEFAULT_READ_TIMEOUT: int := 15000

  // ------------------------------------------------------------ responses

  datatype Status = OK | BAD_REQUEST | INTERNAL_SERVER_ERROR

  /** A response: its status and its text body, if it has one. */
  datatype Reply = Reply(status: Status, body: Option<string>)

  /** Why a `CustomBadRequestException` was thrown. */
  datatype Refusal =
    | InvalidSlot
    | InvalidDevice
    | InvalidPort
    | MissingArgument
    | NotNumeric
    | RepeatCountAboveMax
    | ListsMismatch
    | DelayAboveMax
    | MissingHoldTime
    | DurationAtTimeout
    | MissingCommand

  /** How a request ends: refused with a 400, with an exception nobody catches, or with a response. */
  datatype Outcome = Refused(why: Refusal) | Thrown(error: Exn) | Replied(reply: Reply)

  /** A check that either lets the request go on with a value or ends it. */
  datatype Checked<T> = Pass(value: T) | Stop(outcome: Outcome)

  /** What a controller asks of the remote it obtained, in order; a sleep of the controller's own is listed too. */
  datatype Act =
    | PressKeyCall(command: string)
    | PressListCall(commandList: string, delay: int)
    | HoldCall(command: string, count: int)
    | HoldDurationCall(command: string, durationSec: int)
    | PressKeysCall(commands: seq<string>, delay: int)
    | TuneCall(channel: string, autoTuneEnabled: bool, delay: int)
    | SendTextCall(text: string)
    | SleepCall(ms: int)

  // ------------------------------------------------------------ Java arithmetic

  /** Java's `/` on `int`: the quotient rounded toward zero. */
  function JavaDiv(a: int, b: int): (q: int)
    requires b > 0
    ensures (a < 0 ==> q <= 0) && (a >= 0 ==> q >= 0)
    ensures (if q < 0 then -q else q) == (if a < 0 then -a else a) / b
  {
    var magnitude: nat := if a < 0 then -a else a;
    var k: int := magnitude / b;
    if a >= 0 then k else -k
  }

  // ------------------------------------------------------------ argument checks

  /** No argument is null or empty. */
  predicate AllGiven(args: seq<Option<string>>)
  {
    forall i :: 0 <= i < |args| ==> Given(args[i])
  }

  /** One argument that is neither null nor empty. */
  predicate Given(arg: Option<string>) {
    arg.Some? && arg.value != ""
  }

  /** `isStringArgValid(a, b)`, argument by argument. */
  lemma GivenTwo(a: Option<string>, b: Option<string>)
    ensures AllGiven([a, b]) <==> Given(a) && Given(b)
  {
    assert [a, b][0] == a && [a, b][1] == b;
  }

  /** `isStringArgValid(a, b, c)`, argument by argument. */
  lemma GivenThree(a: Option<string>, b: Option<string>, c: Option<string>)
    ensures AllGiven([a, b, c]) <==> Given(a) && Given(b) && Given(c)
  {
    assert [a, b, c][0] == a && [a, b, c][1] == b && [a, b, c][2] == c;
  }

  /** `isStringArgValid(a, b, c, d)`, argument by argument. */
  lemma GivenFour(a: Option<string>, b: Option<string>, c: Option<string>, d: Option<string>)
    ensures AllGiven([a, b, c, d]) <==> Given(a) && Given(b) && Given(c) && Given(d)
  {
    assert [a, b, c, d][0] == a && [a, b, c, d][1] == b && [a, b, c, d][2] == c && [a, b, c, d][3] == d;
  }

  /** `isStringArgValid(args...)`: the loop that stops at the first null or empty argument. */
  method IsStringArgValid(args: seq<Option<string>>) returns (isValid: bool)
    ensures isValid <==> AllGiven(args)
  {
    isValid := true;
    var i := 0;
    while i < |args|
      invariant 0 <= i <= |args|
      invariant AllGiven(args[..i])
    {
      if args[i].None? || args[i].value == "" {
        isValid := false;
        break;
      }
      i := i + 1;
    }
    if isValid {
      assert args[..i] == args;
    }
  }

  // ------------------------------------------------------------ the tokenizer

  lemma DropEmptyCons(x: string, ps: seq<string>)
    ensures DropEmpty([x] + ps) == (if x == "" then [] else [x]) + DropEmpty(ps)
  {
    assert ([x] + ps)[1..] == ps;
  }

  /** A token of `DropEmpty` is one of its inputs. */
  lemma {:induction false} DropEmptyFrom(ps: seq<string>)
    ensures forall j :: 0 <= j < |DropEmpty(ps)| ==> DropEmpty(ps)[j] in ps
  {
    if ps != [] {
      DropEmptyFrom(ps[1..]);
    }
  }

  /** Non-empty parts are all kept. */
  lemma {:induction false} DropEmptyKeeps(ps: seq<string>)
    requires forall i :: 0 <= i < |ps| ==> ps[i] != ""
    ensures DropEmpty(ps) == ps
  {
    if ps != [] {
      DropEmptyKeeps(ps[1..]);
    }
  }

  /**
   * The scan of `new StringTokenizer(s, [d])` while `hasMoreTokens()`:
   * characters gather into a token, a delimiter ends it, an empty token is
   * never handed out.
   */
  method Tokenize(s: string, d: char) returns (tokens: seq<string>)
    ensures tokens == Tokens(s, d)
  {
    tokens := [];
    var token := "";
    var i := 0;
    while i < |s|
      invariant 0 <= i <= |s|
      invariant tokens + Scan(s, d, i, token) == Scan(s, d, 0, "")
    {
      if s[i] == d {
        if token != "" {
          assert tokens + Scan(s, d, i, token) == (tokens + [token]) + Scan(s, d, i + 1, "");
          tokens := tokens + [token];
        }
        token := "";
      } else {
        token := token + [s[i]];
      }
      i := i + 1;
    }
    if token != "" {
      tokens := tokens + [token];
    }
    assert "" + s[0..] == s;
    ScanTokens(s, d, 0, "");
  }

  /**
   * The tokens a scan from position `i` hands out when `token` has been
   * gathered so far: a delimiter ends the token, the end of the input ends
   * the last one, and an empty token is never handed out.
   */
  function Scan(s: string, d: char, i: nat, token: string): seq<string>
    requires i <= |s|
    decreases |s| - i
  {
    if i == |s| then (if token == "" then [] else [token])
    else if s[i] == d then (if token == "" then [] else [token]) + Scan(s, d, i + 1, "")
    else Scan(s, d, i + 1, token + [s[i]])
  }

  /** The scan gives the non-empty pieces of what it has still to read, prefixed by its token. */
  lemma {:induction false} ScanTokens(s: string, d: char, i: nat, token: string)
    requires i <= |s| && d !in token
    ensures Scan(s, d, i, token) == DropEmpty(Pieces(token + s[i..], [d]))
    decreases |s| - i
  {
    if i == |s| {
      LastToken(s, token, d);
    } else if s[i] == d {
      DelimiterStep(s, i, token, d);
      ScanTokens(s, d, i + 1, "");
    } else {
      CharacterStep(s, i, token);
      ScanTokens(s, d, i + 1, token + [s[i]]);
    }
  }

  /** A delimiter at `i` ends the token gathered so far. */
  lemma DelimiterStep(s: string, i: int, token: string, d: char)
    requires 0 <= i < |s| && s[i] == d && d !in token
    ensures DropEmpty(Pieces(token + s[i..], [d])) == (if token == "" then [] else [token]) + DropEmpty(Pieces("" + s[i + 1..], [d]))
  {
    assert s[i..] == [s[i]] + s[i + 1..];
    assert token + s[i..] == token + [d] + s[i + 1..];
    assert "" + s[i + 1..] == s[i + 1..];
    PiecesCons(token, [d], s[i + 1..]);
    DropEmptyCons(token, Pieces(s[i + 1..], [d]));
  }

  /** Any other character joins the token. */
  lemma CharacterStep(s: string, i: int, token: string)
    requires 0 <= i < |s|
    ensures token + s[i..] == (token + [s[i]]) + s[i + 1..]
  {
    assert s[i..] == [s[i]] + s[i + 1..];
  }

  /** At the end of the input, the token gathered so far is the last one, if it is not empty. */
  lemma LastToken(s: string, token: string, d: char)
    requires d !in token
    ensures DropEmpty(Pieces(token + s[|s|..], [d])) == (if token == "" then [] else [token])
  {
    assert token + s[|s|..] == token;
    PiecesNoSep(token, [d]);
    DropEmptyCons(token, []);
  }

  /** Every token is non-empty and free of the delimiter. */
  lemma TokensShape(s: string, d: char)
    ensures forall j :: 0 <= j < |Tokens(s, d)| ==> Tokens(s, d)[j] != "" && d !in Tokens(s, d)[j]
  {
    PiecesFree(s, d);
    DropEmptyFrom(Pieces(s, [d]));
  }

  /** Tokens joined by the delimiter come back as the same list, in order. */
  lemma TokensOfJoin(ps: seq<string>, d: char)
    requires |ps| >= 1
    requires forall i :: 0 <= i < |ps| ==> ps[i] != "" && d !in ps[i]
    ensures Tokens(Join(ps, [d]), d) == ps
  {
    PiecesOfJoin(ps, [d]);
    DropEmptyKeeps(ps);
  }

  /** A leading delimiter gives no token: empty tokens are dropped. */
  lemma TokensSkipDelimiter(s: string, d: char)
    ensures Tokens([d] + s, d) == Tokens(s, d)
  {
    assert ([d] + s)[1..] == s;
    DropEmptyCons("", Pieces(s, [d]));
  }

  /** A token followed by the delimiter is that one token: how `"M" + ","` reads. */
  lemma TokensOfTerminated(t: string, d: char)
    requires t != "" && d !in t
    ensures Tokens(t + [d], d) == [t]
  {
    PiecesCons(t, [d], "");
    assert t + [d] + "" == t + [d];
    DropEmptyCons(t, Pieces("", [d]));
  }

  /** `getRemoteCommandList(commands)`: the comma-separated tokens. */
  method GetRemoteCommandList(commands: string) returns (commandList: seq<string>)
    ensures commandList == Tokens(commands, ',')
    ensures forall j :: 0 <= j < |commandList| ==> commandList[j] != "" && ',' !in commandList[j]
  {
    commandList := Tokenize(commands, ',');
    TokensShape(commands, ',');
  }

  /** `Integer.parseInt` of each token; a token that is not a number throws. */
  function ParseAll(tokens: seq<string>): (r: Result<seq<int>>)
    ensures r.Ok? <==> forall i :: 0 <= i < |tokens| ==> ParseInt(tokens[i]).Ok?
    ensures r.Ok? ==> |r.value| == |tokens| && forall i :: 0 <= i < |tokens| ==> ParseInt(tokens[i]) == Ok(r.value[i])
    ensures r.Err? ==> r.error == NumberFormat
  {
    if tokens == [] then Ok([])
    else match ParseAll(tokens[..|tokens| - 1])
      case Err(x) => Err(x)
      case Ok(vs) =>
        match ParseInt(tokens[|tokens| - 1])
        case Err(x) => Err(x)
        case Ok(v) => Ok(vs + [v])
  }

  /** `getIntegerList(integerList)`: the loop that parses token after token. */
  method GetIntegerList(integerList: string) returns (r: Result<seq<int>>)
    ensures r == ParseAll(Tokens(integerList, ','))
  {
    var tokens := Tokenize(integerList, ',');
    var intList := [];
    for i := 0 to |tokens|
      invariant ParseAll(tokens[..i]) == Ok(intList)
    {
      assert tokens[..i + 1][..i] == tokens[..i];
      var v := ParseInt(tokens[i]);
      if v.Err? {
        return Err(v.error);
      }
      intList := intList + [v.value];
    }
    assert tokens[..|tokens|] == tokens;
    r := Ok(intList);
  }

  /** The for-each loop that throws at the first value above `bound`. */
  method NoneAbove(xs: seq<int>, bound: int) returns (ok: bool)
    ensures ok <==> forall i :: 0 <= i < |xs| ==> xs[i] <= bound
  {
    for i := 0 to |xs|
      invariant forall j :: 0 <= j < i ==> xs[j] <= bound
    {
      if xs[i] > bound {
        return false;
      }
    }
    ok := true;
  }

  // ------------------------------------------------------------ MAX_REPEAT_COUNT

  /**
   * What `init` computes: `Integer.parseInt(readTimeout) / 100 -
   * REPEATCOUNT_READTIMEOUT_OFFSET`, where a null or non-numeric read timeout
   * throws NumberFormatException.
   */
  function RepeatCap(readTimeout: Option<string>): (r: Result<int>)
    ensures r.Err? <==> readTimeout.None? || ParseInt(readTimeout.value).Err?
    ensures r.Err? ==> r.error == NumberFormat
  {
    if readTimeout.None? then Err(NumberFormat)
    else match ParseInt(readTimeout.value)
      case Err(x) => Err(x)
      case Ok(t) => Ok(JavaDiv(t, 100) - REPEATCOUNT_READTIMEOUT_OFFSET)
  }

  /** A read timeout of t milliseconds, written in digits, allows t / 100 - 30 repeats, rounded down. */
  lemma RepeatCapOfDigits(s: string)
    requires AllDigits(s) && DigitsValue(s) <= INT_MAX
    ensures RepeatCap(Some(s)) == Ok(DigitsValue(s) / 100 - REPEATCOUNT_READTIMEOUT_OFFSET)
  {
    ParseDigits(s);
  }

  /** The read timeout of 15000 allows 120 repeats. */
  lemma RepeatCapDefault()
    ensures RepeatCap(Some("15000")) == Ok(120)
  {
    var s := "15000";
    assert AllDigits(s);
    assert s[..1] == "1" && s[..2][..1] == s[..1] && s[..3][..2] == s[..2] && s[..4][..3] == s[..3] && s[..4] == s[..|s| - 1];
    assert DigitsValue(s[..1]) == 1;
    assert DigitsValue(s[..2]) == 15;
    assert DigitsValue(s[..3]) == 150;
    assert DigitsValue(s[..4]) == 1500;
    assert DigitsValue(s) == 15000;
    RepeatCapOfDigits(s);
  }

  /**
   * The count checks of `pressKeyAndHold` after its arguments: digits only,
   * then `Integer.parseInt`, then, when there is a cap, no more than the cap.
   */
  function HoldCount(holdTime: string, cap: int): (r: Checked<int>)
    ensures r.Pass? <==> AllDigits(holdTime) && DigitsValue(holdTime) <= INT_MAX && DigitsValue(holdTime) <= cap
    ensures r.Pass? ==> r.value == DigitsValue(holdTime)
    ensures !AllDigits(holdTime) ==> r == Stop(Refused(NotNumeric))
    ensures AllDigits(holdTime) && DigitsValue(holdTime) <= INT_MAX && DigitsValue(holdTime) > cap ==>
      r == Stop(Refused(RepeatCountAboveMax))
  {
    if !AllDigits(holdTime) then Stop(Refused(NotNumeric))
    else
      ParseDigitsOrOverflow(holdTime);
      match ParseInt(holdTime)
      case Err(x) => Stop(Thrown(x))
      case Ok(count) => if count > cap then Stop(Refused(RepeatCountAboveMax)) else Pass(count)
  }

  /** Digits parse to their value, or throw when that value is past the `int` range. */
  lemma ParseDigitsOrOverflow(s: string)
    requires AllDigits(s)
    ensures ParseInt(s).Ok? <==> DigitsValue(s) <= INT_MAX
    ensures ParseInt(s).Ok? ==> ParseInt(s).value == DigitsValue(s)
  {
    DigitsOfValue(s);
  }

  /** With a read timeout under 3000, the cap is negative and every hold is refused. */
  lemma ShortTimeoutRefusesHolds(s: string, holdTime: string)
    requires AllDigits(s) && DigitsValue(s) < 3000
    ensures RepeatCap(Some(s)).Ok? && !HoldCount(holdTime, RepeatCap(Some(s)).value).Pass?
  {
    RepeatCapOfDigits(s);
  }

  // ------------------------------------------------------------ custom key sequences

  /** One key of a custom sequence: the command, its repeat count and the delay after it. */
  datatype Key = Key(command: string, count: int, delay: int)

  /** The keys read off three lists of equal length, position by position. */
  function KeysOf(commandList: seq<string>, delayList: seq<int>, countList: seq<int>): (keys: seq<Key>)
    requires |delayList| == |commandList| && |countList| == |commandList|
    ensures |keys| == |commandList|
    ensures forall i :: 0 <= i < |keys| ==> keys[i] == Key(commandList[i], countList[i], delayList[i])
  {
    seq(|commandList|, i requires 0 <= i < |commandList| => Key(commandList[i], countList[i], delayList[i]))
  }

  /**
   * The checks `enterCustomKeySequence` makes on its three lists, in order:
   * when there is a cap, no count above it; then a non-empty command list
   * with as many delays and counts as commands; then no delay above
   * MAX_DELAY. What passes is one key per command.
   */
  function CustomKeys(commandList: seq<string>, delayList: seq<int>, countList: seq<int>, cap: Option<int>): (r: Checked<seq<Key>>)
    ensures r.Pass? <==>
      (cap.None? || forall i :: 0 <= i < |countList| ==> countList[i] <= cap.value) &&
      |commandList| > 0 && |delayList| == |commandList| && |countList| == |commandList| &&
      forall i :: 0 <= i < |delayList| ==> delayList[i] <= MAX_DELAY
    ensures r.Pass? ==> r.value == KeysOf(commandList, delayList, countList)
    ensures cap.Some? && (exists i :: 0 <= i < |countList| && countList[i] > cap.value) ==>
      r == Stop(Refused(RepeatCountAboveMax))
    ensures
      ((cap.None? || forall i :: 0 <= i < |countList| ==> countList[i] <= cap.value) &&
       (|commandList| == 0 || |delayList| != |commandList| || |countList| != |commandList|))
      ==> r == Stop(Refused(ListsMismatch))
    ensures r.Stop? ==> r.outcome.Refused?
  {
    if cap.Some? && exists i :: 0 <= i < |countList| && countList[i] > cap.value then Stop(Refused(RepeatCountAboveMax))
    else if |commandList| == 0 || |delayList| != |commandList| || |countList| != |commandList| then Stop(Refused(ListsMismatch))
    else if exists i :: 0 <= i < |delayList| && delayList[i] > MAX_DELAY then Stop(Refused(DelayAboveMax))
    else Pass(KeysOf(commandList, delayList, countList))
  }

  /** What the remote is asked for one key: press and hold for a positive count, a plain press otherwise. */
  function ActOf(key: Key): (a: Act)
    ensures a.HoldCall? <==> key.count > 0
    ensures a.HoldCall? || a.PressKeyCall?
    ensures a.command == key.command
  {
    if key.count > 0 then HoldCall(key.command, key.count) else PressKeyCall(key.command)
  }

  /**
   * The key loop from key i on, where `answer(i)` is what the remote answers
   * to key i and `last` is the answer so far: a failed key ends the loop, a
   * successful one is followed by its delay, and a negative delay makes
   * `Thread.sleep` throw IllegalArgumentException, which the loop does not
   * catch. The result is how the loop ends and what was asked of the remote.
   */
  function Presses(keys: seq<Key>, answer: int -> bool, i: nat, last: bool): (Checked<bool>, seq<Act>)
    requires i <= |keys|
    decreases |keys| - i
  {
    if i == |keys| then (Pass(last), [])
    else if !answer(i) then (Pass(false), [ActOf(keys[i])])
    else if keys[i].delay < 0 then (Stop(Thrown(IllegalArgument)), [ActOf(keys[i]), SleepCall(keys[i].delay)])
    else
      var rest := Presses(keys, answer, i + 1, true);
      (rest.0, [ActOf(keys[i]), SleepCall(keys[i].delay)] + rest.1)
  }

  /** Key j went through: the remote accepted it and its delay could be slept. */
  predicate Through(keys: seq<Key>, answer: int -> bool, j: int)
    requires 0 <= j < |keys|
  {
    answer(j) && keys[j].delay >= 0
  }

  /** Keys i to n - 1, each followed by its delay. */
  function Sent(keys: seq<Key>, i: nat, n: nat): (r: seq<Act>)
    requires i <= n <= |keys|
    ensures |r| == 2 * (n - i)
    ensures forall j :: i <= j < n ==> r[2 * (j - i)] == ActOf(keys[j]) && r[2 * (j - i) + 1] == SleepCall(keys[j].delay)
    decreases n - i
  {
    if i == n then [] else [ActOf(keys[i]), SleepCall(keys[i].delay)] + Sent(keys, i + 1, n)
  }

  /**
   * The loop answers true exactly when there were keys and every one went
   * through; it answers false exactly when a key was refused before any
   * negative delay; otherwise it throws IllegalArgumentException.
   */
  lemma {:induction false} PressesAnswer(keys: seq<Key>, answer: int -> bool, i: nat, last: bool)
    requires i <= |keys|
    ensures Presses(keys, answer, i, last).0 == Pass(true) <==>
      (i == |keys| && last) || (i < |keys| && forall j :: i <= j < |keys| ==> Through(keys, answer, j))
    ensures Presses(keys, answer, i, last).0.Stop? <==>
      exists n :: i <= n < |keys| && answer(n) && keys[n].delay < 0 && forall j :: i <= j < n ==> Through(keys, answer, j)
    ensures Presses(keys, answer, i, last).0.Stop? ==> Presses(keys, answer, i, last).0.outcome == Thrown(IllegalArgument)
    decreases |keys| - i
  {
    if i < |keys| && answer(i) && keys[i].delay >= 0 {
      PressesAnswer(keys, answer, i + 1, true);
      var p := Presses(keys, answer, i + 1, true).0;
      if p.Stop? {
        var n :| i + 1 <= n < |keys| && answer(n) && keys[n].delay < 0 && forall j :: i + 1 <= j < n ==> Through(keys, answer, j);
        assert forall j :: i <= j < n ==> Through(keys, answer, j);
      } else {
        forall n | i <= n < |keys| && answer(n) && keys[n].delay < 0
          ensures !(forall j :: i <= j < n ==> Through(keys, answer, j))
        {
          if n == i {
          } else {
            assert !(forall j :: i + 1 <= j < n ==> Through(keys, answer, j));
          }
        }
      }
    } else if i < |keys| {
      assert !Through(keys, answer, i);
      if !answer(i) {
        forall n | i <= n < |keys| && answer(n) && keys[n].delay < 0
          ensures !(forall j :: i <= j < n ==> Through(keys, answer, j))
        {
          assert n > i && !Through(keys, answer, i);
        }
      }
    }
  }

  /**
   * The loop stops at the first key that does not go through: every key
   * before it was sent and followed by its delay; a refused key was sent
   * and the loop answers false, a key with a negative delay was sent, its
   * sleep was asked for and the loop throws; nothing came after it. With no
   * such key, every key was sent.
   */
  lemma {:induction false} PressesStopAtFailure(keys: seq<Key>, answer: int -> bool, i: nat, last: bool, n: nat)
    requires i <= n <= |keys|
    requires forall j :: i <= j < n ==> Through(keys, answer, j)
    requires n < |keys| ==> !Through(keys, answer, n)
    ensures Presses(keys, answer, i, last).1 ==
      Sent(keys, i, n) + (if n == |keys| then [] else if answer(n) then [ActOf(keys[n]), SleepCall(keys[n].delay)] else [ActOf(keys[n])])
    ensures n < |keys| ==>
      Presses(keys, answer, i, last).0 == (if answer(n) then Stop(Thrown(IllegalArgument)) else Pass(false))
    decreases |keys| - i
  {
    if i < n {
      assert Through(keys, answer, i);
      PressesStopAtFailure(keys, answer, i + 1, true, n);
    }
  }

  /** The loop of `enterCustomKeySequence` over the keys. */
  method SendKeys(keys: seq<Key>, answer: int -> bool) returns (c: Checked<bool>, acts: seq<Act>)
    ensures (c, acts) == Presses(keys, answer, 0, false)
  {
    var keyPressOk := false;
    acts := [];
    var i := 0;
    assert acts + Presses(keys, answer, i, keyPressOk).1 == Presses(keys, answer, i, keyPressOk).1;
    while i < |keys|
      invariant 0 <= i <= |keys|
      invariant Presses(keys, answer, 0, false) ==
        (Presses(keys, answer, i, keyPressOk).0, acts + Presses(keys, answer, i, keyPressOk).1)
    {
      ghost var before, lastOk := acts, keyPressOk;
      var key := keys[i];
      if key.count > 0 {
        acts := acts + [HoldCall(key.command, key.count)];
      } else {
        acts := acts + [PressKeyCall(key.command)];
      }
      assert acts == before + [ActOf(key)];
      keyPressOk := answer(i);
      if !keyPressOk {
        break;
      }
      acts := acts + [SleepCall(key.delay)];
      if key.delay < 0 {
        assert Presses(keys, answer, i, lastOk) == (Stop(Thrown(IllegalArgument)), [ActOf(key), SleepCall(key.delay)]);
        assert acts == before + [ActOf(key), SleepCall(key.delay)];
        return Stop(Thrown(IllegalArgument)), acts;
      }
      assert before + ([ActOf(key), SleepCall(key.delay)] + Presses(keys, answer, i + 1, true).1) ==
        acts + Presses(keys, answer, i + 1, true).1;
      i := i + 1;
    }
    assert i == |keys| ==> acts + Presses(keys, answer, i, keyPressOk).1 == acts;
    c := Pass(keyPressOk);
  }

  /**
   * `enterCustomKeySequence` once the remote is obtained: the command list,
   * the delay list and the count list (a count or delay that is not a number
   * throws), their checks, and the key loop, whose last answer is the result
   * unless a negative delay threw.
   */
  function CustomLists(commands: string, delay: string, repeatCount: string, cap: Option<int>, answer: int -> bool): (Checked<bool>, seq<Act>)
  {
    match ParseAll(Tokens(delay, ','))
    case Err(x) => (Stop(Thrown(x)), [])
    case Ok(delayList) =>
      match ParseAll(Tokens(repeatCount, ','))
      case Err(x) => (Stop(Thrown(x)), [])
      case Ok(countList) =>
        match CustomKeys(Tokens(commands, ','), delayList, countList, cap)
        case Stop(o) => (Stop(o), [])
        case Pass(keys) => Presses(keys, answer, 0, false)
  }

  /**
   * A custom sequence succeeds exactly when both number lists parse, the
   * lists pass their checks, the remote accepts every command and no delay
   * is negative.
   */
  lemma CustomListsSucceed(commands: string, delay: string, repeatCount: string, cap: Option<int>, answer: int -> bool)
    ensures CustomLists(commands, delay, repeatCount, cap, answer).0 == Pass(true) <==>
      ParseAll(Tokens(delay, ',')).Ok? && ParseAll(Tokens(repeatCount, ',')).Ok? &&
      CustomKeys(Tokens(commands, ','), ParseAll(Tokens(delay, ',')).value, ParseAll(Tokens(repeatCount, ',')).value, cap).Pass? &&
      forall j :: 0 <= j < |Tokens(commands, ',')| ==> answer(j) && ParseAll(Tokens(delay, ',')).value[j] >= 0
  {
    var delays := ParseAll(Tokens(delay, ','));
    var counts := ParseAll(Tokens(repeatCount, ','));
    if delays.Ok? && counts.Ok? {
      var keys := CustomKeys(Tokens(commands, ','), delays.value, counts.value, cap);
      if keys.Pass? {
        PressesAnswer(keys.value, answer, 0, false);
        assert forall j :: 0 <= j < |keys.value| ==>
          (Through(keys.value, answer, j) <==> answer(j) && delays.value[j] >= 0);
      }
    }
  }

  /** The lists, their checks and the loop of `enterCustomKeySequence`, shared by both controllers. */
  method RunCustomLists(commands: string, delay: string, repeatCount: string, cap: Option<int>, answer: int -> bool)
    returns (c: Checked<bool>, acts: seq<Act>)
    ensures (c, acts) == CustomLists(commands, delay, repeatCount, cap, answer)
  {
    var commandList := GetRemoteCommandList(commands);
    var delayList := GetIntegerList(delay);
    if delayList.Err? {
      return Stop(Thrown(delayList.error)), [];
    }
    var countList := GetIntegerList(repeatCount);
    if countList.Err? {
      return Stop(Thrown(countList.error)), [];
    }
    var keys := CheckLists(commandList, delayList.value, countList.value, cap);
    if keys.Stop? {
      return Stop(keys.outcome), [];
    }
    c, acts := SendKeys(keys.value, answer);
  }

  /** The checks on the three lists, one loop each, before any key is pressed. */
  method CheckLists(commandList: seq<string>, delayList: seq<int>, countList: seq<int>, cap: Option<int>) returns (r: Checked<seq<Key>>)
    ensures r == CustomKeys(commandList, delayList, countList, cap)
  {
    if cap.Some? {
      var underCap := NoneAbove(countList, cap.value);
      if !underCap {
        return Stop(Refused(RepeatCountAboveMax));
      }
    }
    var n := |commandList|;
    if !(n > 0 && n == |delayList| && n == |countList|) {
      return Stop(Refused(ListsMismatch));
    }
    var delaysOk := NoneAbove(delayList, MAX_DELAY);
    if !delaysOk {
      return Stop(Refused(DelayAboveMax));
    }
    r := Pass(KeysOf(commandList, delayList, countList));
  }

  // ------------------------------------------------------------ remote command sequences

  /**
   * The strings one "cmd,repeat,delay" entry leaves: its first three tokens,
   * each followed by ','; a null or empty entry is refused, and one with
   * fewer than three tokens throws NoSuchElementException.
   */
  function EntryStrings(cmd: Option<string>): (r: Checked<(string, string, string)>)
  {
    if cmd.None? || cmd.value == "" then Stop(Refused(MissingCommand))
    else
      var ts := Tokens(cmd.value, ',');
      if |ts| < 3 then Stop(Thrown(NoSuchElement))
      else Pass((ts[0] + ",", ts[1] + ",", ts[2] + ","))
  }

  /**
   * The loop of `enterRemoteCommandSequence` from entry i on: the strings
   * are reassigned, not appended, so each entry replaces what the one
   * before left; the first bad entry ends the request.
   */
  function LastEntry(commandList: seq<Option<string>>, i: nat, current: (string, string, string)): Checked<(string, string, string)>
    requires i <= |commandList|
    decreases |commandList| - i
  {
    if i == |commandList| then Pass(current)
    else match EntryStrings(commandList[i])
      case Stop(o) => Stop(o)
      case Pass(strings) => LastEntry(commandList, i + 1, strings)
  }

  /** When every entry is well formed, only the last entry's strings are left. */
  lemma {:induction false} LastEntryWins(commandList: seq<Option<string>>, i: nat, current: (string, string, string))
    requires i < |commandList|
    requires forall j :: i <= j < |commandList| ==> EntryStrings(commandList[j]).Pass?
    ensures LastEntry(commandList, i, current) == EntryStrings(commandList[|commandList| - 1])
    decreases |commandList| - i
  {
    if i + 1 < |commandList| {
      LastEntryWins(commandList, i + 1, EntryStrings(commandList[i]).value);
    }
  }

  /**
   * What is forwarded holds one key: the three strings tokenise to the
   * last entry's command, count and delay, one each.
   */
  lemma ForwardsOneKey(cmd: Option<string>)
    requires EntryStrings(cmd).Pass?
    ensures var ts := Tokens(cmd.value, ',');
      var (c, rp, d) := EntryStrings(cmd).value;
      Tokens(c, ',') == [ts[0]] && Tokens(rp, ',') == [ts[1]] && Tokens(d, ',') == [ts[2]]
  {
    var ts := Tokens(cmd.value, ',');
    TokensShape(cmd.value, ',');
    TokensOfTerminated(ts[0], ',');
    TokensOfTerminated(ts[1], ',');
    TokensOfTerminated(ts[2], ',');
  }

  /** The for-each loop of `enterRemoteCommandSequence`, with a tokenizer per entry. */
  method ForwardedStrings(commandList: seq<Option<string>>) returns (r: Checked<(string, string, string)>)
    ensures r == LastEntry(commandList, 0, ("", "", ""))
  {
    var commandString, repeatString, delayString := "", "", "";
    for i := 0 to |commandList|
      invariant LastEntry(commandList, 0, ("", "", "")) == LastEntry(commandList, i, (commandString, repeatString, delayString))
    {
      var cmd := commandList[i];
      var valid := IsStringArgValid([cmd]);
      assert [cmd][0] == cmd;
      if !valid {
        return Stop(Refused(MissingCommand));
      }
      var tokens := Tokenize(cmd.value, ',');
      if |tokens| < 3 {
        return Stop(Thrown(NoSuchElement));
      }
      commandString := tokens[0] + ",";
      repeatString := tokens[1] + ",";
      delayString := tokens[2] + ",";
    }
    r := Pass((commandString, repeatString, delayString));
  }

  // ------------------------------------------------------------ answers and responses

  /** The slot controller's response to an answer: 200 "true", or 400 "false". */
  function SlotReply(ok: bool): (reply: Reply)
    ensures reply.status == OK <==> ok
    ensures reply.status != INTERNAL_SERVER_ERROR && reply.body == Some(if ok then "true" else "false")
  {
    if ok then Reply(OK, Some("true")) else Reply(BAD_REQUEST, Some("false"))
  }

  /** The device controller's response to an answer: 200 "true", or 500 "false". */
  function DeviceReply(ok: bool): (reply: Reply)
    ensures reply.status == OK <==> ok
    ensures reply.status != BAD_REQUEST && reply.body == Some(if ok then "true" else "false")
  {
    if ok then Reply(OK, Some("true")) else Reply(INTERNAL_SERVER_ERROR, Some("false"))
  }

  /** A remote's answer as the end of a request: an exception propagates, a value becomes the response. */
  function Answered(answer: Result<bool>, reply: bool -> Reply): Outcome
  {
    if answer.Err? then Thrown(answer.error) else Replied(reply(answer.value))
  }

  /** The end of a custom sequence: a check that stopped it, or the response to its last answer. */
  function Concluded(c: Checked<bool>, reply: bool -> Reply): Outcome
  {
    if c.Stop? then c.outcome else Replied(reply(c.value))
  }

  /** `Boolean.parseBoolean(s)`: "true" in any case; anything else, null included, is false. */
  function ParseBoolean(s: Option<string>): bool
  {
    s.Some? && EqualsIgnoreCase(s.value, "true")
  }

  // ------------------------------------------------------------ the read timeout of a timed hold

  /**
   * The bound check of `pressKeyAndHoldDuration` as the source has it: the
   * read timeout is `Integer.getInteger("readrat.read.timeout")` unboxed into
   * an `int`, so an unset property is a NullPointerException; a duration of
   * at least the timeout in whole seconds is refused.
   */
  function DurationBoundAsWritten(durationSec: int, readTimeoutProperty: Option<int>): (v: Option<Outcome>)
    ensures readTimeoutProperty.None? ==> v == Some(Thrown(NullPointer))
  {
    if readTimeoutProperty.None? then Some(Thrown(NullPointer))
    else if durationSec >= JavaDiv(readTimeoutProperty.value, 1000) then Some(Refused(DurationAtTimeout))
    else None
  }

  /**
   * The bound check with the default `TelnetConnection` reads the same
   * property with, 15000 ms: it never throws.
   */
  function DurationBound(durationSec: int, readTimeoutProperty: Option<int>): (v: Option<Outcome>)
    ensures v.None? || v == Some(Refused(DurationAtTimeout))
  {
    var readTimeout := if readTimeoutProperty.Some? then readTimeoutProperty.value else DEFAULT_READ_TIMEOUT;
    if durationSec >= JavaDiv(readTimeout, 1000) then Some(Refused(DurationAtTimeout)) else None
  }

  /**
   * With the property unset, the check as written fails every timed hold,
   * while the corrected one lets through exactly the holds shorter than 15 s.
   */
  lemma UnsetTimeoutThrows(durationSec: int)
    ensures DurationBoundAsWritten(durationSec, None) == Some(Thrown(NullPointer))
    ensures DurationBound(durationSec, None).None? <==> durationSec < 15
  {
    assert JavaDiv(DEFAULT_READ_TIMEOUT, 1000) == 15;
  }

  /** When the property is set, the corrected check is the check as written. */
  lemma DurationBoundAgrees(durationSec: int, readTimeout: int)
    ensures DurationBound(durationSec, Some(readTimeout)) == DurationBoundAsWritten(durationSec, Some(readTimeout))
    ensures DurationBound(durationSec, Some(readTimeout)).None? <==> durationSec < JavaDiv(readTimeout, 1000)
  {
  }

  // ------------------------------------------------------------ the remotes the processor gives

  /** `validateSlot(slot)` on the outcome of the slot lookup: a slot no device has is refused, other failures propagate. */
  function SlotVerdict(found: Result<(int, int)>): (v: Option<Outcome>)
    ensures v.None? <==> found.Ok?
    ensures v == Some(Refused(InvalidSlot)) <==> found == Err(IllegalState)
    ensures v.Some? && !v.value.Refused? ==> v == Some(Thrown(found.error))
  {
    match found
    case Ok(_) => None
    case Err(x) => if x == IllegalState then Some(Refused(InvalidSlot)) else Some(Thrown(x))
  }

  /** What `processor.getRemote(slot, keySet)` gives. */
  function SlotRemote(p: Processor.RemoteProcessor, slot: string, keySet: string): Result<Processor.RemoteRequest>
    reads p, p.irConfig, p.irConfig.Blocks(), p.mappingService, p.mappingService.table, p.mappingService.table.slots
  {
    var n := p.irConfig.Normalized();
    if n.Err? then Err(n.error)
    else if n.value == [] then Err(IllegalState)
    else match p.Mapping(slot)
      case Err(x) => Err(x)
      case Ok(found) => Processor.RemoteFor(n.value, found.0, found.1, keySet)
  }

  /** What `processor.getRemote(parseInt(device), parseInt(port), keySet)` gives. */
  function DeviceRemote(p: Processor.RemoteProcessor, device: string, port: string, keySet: string): Result<Processor.RemoteRequest>
    reads p.irConfig, p.irConfig.Blocks()
  {
    match ParseInt(device)
    case Err(x) => Err(x)
    case Ok(deviceId) =>
      match ParseInt(port)
      case Err(x) => Err(x)
      case Ok(irPort) =>
        var n := p.irConfig.Normalized();
        if n.Err? then Err(n.error) else Processor.RemoteFor(n.value, deviceId, irPort, keySet)
  }

  /** A failure to obtain the remote, as the end of the request. */
  function RemoteVerdict(remote: Result<Processor.RemoteRequest>): (v: Option<Outcome>)
    ensures v.None? <==> remote.Ok?
  {
    if remote.Err? then Some(Thrown(remote.error)) else None
  }

  // ------------------------------------------------------------ IRResource

  /** The controller under "rest/{slot}": a remote named by its slot. */
  class IRResource {
    const processor: Processor.RemoteProcessor
    var maxRepeatCount: int

    constructor (processor: Processor.RemoteProcessor)
      ensures this.processor == processor && maxRepeatCount == INITIAL_MAX_REPEAT_COUNT
    {
      this.processor := processor;
      maxRepeatCount := INITIAL_MAX_REPEAT_COUNT;
    }

    /**
     * `init()`: the repeat-count cap from the hub's read timeout; a read
     * timeout that is not a number fails start-up and leaves the cap as it was.
     */
    method Init(redRatHubReadTimeout: Option<string>) returns (r: Result<()>)
      modifies this`maxRepeatCount
      ensures r.Ok? <==> RepeatCap(redRatHubReadTimeout).Ok?
      ensures r.Ok? ==> maxRepeatCount == RepeatCap(redRatHubReadTimeout).value
      ensures r.Err? ==> r.error == NumberFormat && maxRepeatCount == old(maxRepeatCount)
    {
      if redRatHubReadTimeout.None? {
        return Err(NumberFormat);
      }
      var readTimeout := ParseInt(redRatHubReadTimeout.value);
      if readTimeout.Err? {
        return Err(readTimeout.error);
      }
      maxRepeatCount := JavaDiv(readTimeout.value, 100) - REPEATCOUNT_READTIMEOUT_OFFSET;
      r := Ok(());
    }

    /** How `validateSlot(slot)` ends the request, if it does. */
    function SlotCheck(slot: string): Option<Outcome>
      reads processor, processor.mappingService, processor.mappingService.table, processor.mappingService.table.slots
    {
      SlotVerdict(processor.Mapping(slot))
    }

    /** How `getRemote(slot, keySet)` ends the request, if it does. */
    function RemoteCheck(slot: string, keySet: string): Option<Outcome>
      reads processor, processor.irConfig, processor.irConfig.Blocks(), processor.mappingService
      reads processor.mappingService.table, processor.mappingService.table.slots
    {
      RemoteVerdict(SlotRemote(processor, slot, keySet))
    }

    /** `validateSlot(slot)`: a slot the processor does not find is refused. */
    method ValidateSlot(slot: string) returns (v: Option<Outcome>)
      ensures v == SlotCheck(slot)
      ensures v.None? <==> processor.Mapping(slot).Ok?
    {
      var valid := processor.ValidateSlot(slot);
      if valid.Err? {
        return Some(Thrown(valid.error));
      }
      v := if valid.value then None else Some(Refused(InvalidSlot));
    }

    /** `getRemote(slot, keySet)`. */
    method GetRemote(slot: string, keySet: string) returns (r: Result<Processor.RemoteRequest>)
      ensures r == SlotRemote(processor, slot, keySet)
    {
      r := processor.GetRemote(slot, keySet);
    }

    /** `get`: the rack and slot echoed back once the slot is valid. */
    method Get(slot: string, rack: string) returns (r: Outcome)
      ensures SlotCheck(slot).Some? ==> r == SlotCheck(slot).value
      ensures SlotCheck(slot).None? ==> r == Replied(Reply(OK, Some("IR [Rack=" + rack + ", Slot=" + slot + "]")))
    {
      var v := ValidateSlot(slot);
      if v.Some? {
        return v.value;
      }
      r := Replied(Reply(OK, Some("IR [Rack=" + rack + ", Slot=" + slot + "]")));
    }

    /**
     * `pressKey`: no argument check; 200 "true" when the remote accepts,
     * 500 without a body when it refuses, 400 "false" when it throws
     * IllegalArgumentException.
     */
    method PressKey(slot: string, keySet: string, command: string, answer: Result<bool>) returns (r: Outcome, acts: seq<Act>)
      ensures SlotCheck(slot).Some? ==> r == SlotCheck(slot).value && acts == []
      ensures SlotCheck(slot).None? && RemoteCheck(slot, keySet).Some? ==> r == RemoteCheck(slot, keySet).value && acts == []
      ensures SlotCheck(slot).None? && RemoteCheck(slot, keySet).None? ==>
        acts == [PressKeyCall(command)] &&
        (answer == Ok(true) ==> r == Replied(Reply(OK, Some("true")))) &&
        (answer == Ok(false) ==> r == Replied(Reply(INTERNAL_SERVER_ERROR, None))) &&
        (answer == Err(IllegalArgument) ==> r == Replied(Reply(BAD_REQUEST, Some("false")))) &&
        (answer.Err? && answer.error != IllegalArgument ==> r == Thrown(answer.error))
    {
      acts := [];
      var v := ValidateSlot(slot);
      if v.Some? {
        return v.value, acts;
      }
      var remote := GetRemote(slot, keySet);
      if remote.Err? {
        return Thrown(remote.error), acts;
      }
      acts := [PressKeyCall(command)];
      match answer
      case Ok(keyPressOk) =>
        r := if keyPressOk then Replied(Reply(OK, Some("true"))) else Replied(Reply(INTERNAL_SERVER_ERROR, None));
      case Err(x) =>
        r := if x == IllegalArgument then Replied(Reply(BAD_REQUEST, Some("false"))) else Thrown(x);
    }

    /** `pressKeys`: the remote's `pressKey(commandList, delay)`, with no argument check. */
    method PressKeys(slot: string, keySet: string, commandList: string, delay: int, answer: Result<bool>) returns (r: Outcome, acts: seq<Act>)
      ensures SlotCheck(slot).Some? ==> r == SlotCheck(slot).value && acts == []
      ensures SlotCheck(slot).None? && RemoteCheck(slot, keySet).Some? ==> r == RemoteCheck(slot, keySet).value && acts == []
      ensures SlotCheck(slot).None? && RemoteCheck(slot, keySet).None? ==>
        acts == [PressListCall(commandList, delay)] && r == Answered(answer, SlotReply)
    {
      acts := [];
      var v := ValidateSlot(slot);
      if v.Some? {
        return v.value, acts;
      }
      var remote := GetRemote(slot, keySet);
      if remote.Err? {
        return Thrown(remote.error), acts;
      }
      acts := [PressListCall(commandList, delay)];
      r := Answered(answer, SlotReply);
    }

    /**
     * `pressKeyAndHold`: the arguments must be given, the hold time must be
     * digits and at most the repeat-count cap, all before the remote is
     * obtained; the remote is asked to hold for that count.
     */
    method PressKeyAndHold(slot: string, keySet: Option<string>, command: Option<string>, holdTime: Option<string>, answer: Result<bool>)
      returns (r: Outcome, acts: seq<Act>)
      ensures SlotCheck(slot).Some? ==> r == SlotCheck(slot).value && acts == []
      ensures SlotCheck(slot).None? && !(Given(keySet) && Given(command) && Given(holdTime)) ==> r == Refused(MissingArgument) && acts == []
      ensures SlotCheck(slot).None? && (Given(keySet) && Given(command) && Given(holdTime)) ==>
        var count := HoldCount(holdTime.value, maxRepeatCount);
        (count.Stop? ==> r == count.outcome && acts == []) &&
        (count.Pass? && RemoteCheck(slot, keySet.value).Some? ==> r == RemoteCheck(slot, keySet.value).value && acts == []) &&
        (count.Pass? && RemoteCheck(slot, keySet.value).None? ==>
           acts == [HoldCall(command.value, count.value)] && r == Answered(answer, SlotReply))
    {
      acts := [];
      var v := ValidateSlot(slot);
      if v.Some? {
        return v.value, acts;
      }
      var valid := IsStringArgValid([keySet, command, holdTime]);
      if !valid {
        return Refused(MissingArgument), acts;
      }
      GivenThree(keySet, command, holdTime);
      var count := HoldCount(holdTime.value, maxRepeatCount);
      if count.Stop? {
        return count.outcome, acts;
      }
      var remote := GetRemote(slot, keySet.value);
      if remote.Err? {
        return Thrown(remote.error), acts;
      }
      acts := [HoldCall(command.value, count.value)];
      r := Answered(answer, SlotReply);
    }

    /**
     * `pressKeyAndHoldDuration`: the key set and command must be given, the
     * duration must be present, the read timeout property is unboxed (an
     * unset property throws NullPointerException, see `DurationBoundAsWritten`),
     * and the duration must be shorter than the timeout in whole seconds.
     */
    method PressKeyAndHoldDuration(slot: string, keySet: Option<string>, command: Option<string>, durationSec: Option<int>,
                                   readTimeoutProperty: Option<int>, answer: Result<bool>)
      returns (r: Outcome, acts: seq<Act>)
      ensures SlotCheck(slot).Some? ==> r == SlotCheck(slot).value && acts == []
      ensures SlotCheck(slot).None? && !(Given(keySet) && Given(command)) ==> r == Refused(MissingArgument) && acts == []
      ensures SlotCheck(slot).None? && (Given(keySet) && Given(command)) && durationSec.None? ==>
        r == Refused(MissingHoldTime) && acts == []
      ensures SlotCheck(slot).None? && (Given(keySet) && Given(command)) && durationSec.Some? ==>
        var bound := DurationBoundAsWritten(durationSec.value, readTimeoutProperty);
        (bound.Some? ==> r == bound.value && acts == []) &&
        (bound.None? && RemoteCheck(slot, keySet.value).Some? ==> r == RemoteCheck(slot, keySet.value).value && acts == []) &&
        (bound.None? && RemoteCheck(slot, keySet.value).None? ==>
           acts == [HoldDurationCall(command.value, durationSec.value)] && r == Answered(answer, SlotReply))
    {
      acts := [];
      var v := ValidateSlot(slot);
      if v.Some? {
        return v.value, acts;
      }
      var valid := IsStringArgValid([keySet, command]);
      if !valid {
        return Refused(MissingArgument), acts;
      }
      GivenTwo(keySet, command);
      if durationSec.None? {
        return Refused(MissingHoldTime), acts;
      }
      var bound := DurationBoundAsWritten(durationSec.value, readTimeoutProperty);
      if bound.Some? {
        return bound.value, acts;
      }
      var remote := GetRemote(slot, keySet.value);
      if remote.Err? {
        return Thrown(remote.error), acts;
      }
      acts := [HoldDurationCall(command.value, durationSec.value)];
      r := Answered(answer, SlotReply);
    }

    /**
     * `enterCustomKeySequence`: the four arguments must be given; then the
     * remote, then the lists with their checks (repeat counts against the
     * cap first), then the key loop.
     */
    method EnterCustomKeySequence(slot: string, keySet: Option<string>, commands: Option<string>, delay: Option<string>,
                                  repeatCount: Option<string>, answer: int -> bool)
      returns (r: Outcome, acts: seq<Act>)
      ensures SlotCheck(slot).Some? ==> r == SlotCheck(slot).value && acts == []
      ensures SlotCheck(slot).None? && !(Given(keySet) && Given(commands) && Given(repeatCount) && Given(delay)) ==>
        r == Refused(MissingArgument) && acts == []
      ensures SlotCheck(slot).None? && (Given(keySet) && Given(commands) && Given(repeatCount) && Given(delay)) ==>
        (RemoteCheck(slot, keySet.value).Some? ==> r == RemoteCheck(slot, keySet.value).value && acts == []) &&
        (RemoteCheck(slot, keySet.value).None? ==>
           var run := CustomLists(commands.value, delay.value, repeatCount.value, Some(maxRepeatCount), answer);
           acts == run.1 && r == Concluded(run.0, SlotReply))
    {
      acts := [];
      var v := ValidateSlot(slot);
      if v.Some? {
        return v.value, acts;
      }
      var valid := IsStringArgValid([keySet, commands, repeatCount, delay]);
      if !valid {
        return Refused(MissingArgument), acts;
      }
      GivenFour(keySet, commands, repeatCount, delay);
      r, acts := CustomKeySequenceWithRemote(slot, keySet.value, commands.value, delay.value, repeatCount.value, answer);
    }

    /** The part of `enterCustomKeySequence` after its argument check: the remote, then the lists and the key loop. */
    method CustomKeySequenceWithRemote(slot: string, keySet: string, commands: string, delay: string, repeatCount: string, answer: int -> bool)
      returns (r: Outcome, acts: seq<Act>)
      ensures RemoteCheck(slot, keySet).Some? ==> r == RemoteCheck(slot, keySet).value && acts == []
      ensures RemoteCheck(slot, keySet).None? ==>
        var run := CustomLists(commands, delay, repeatCount, Some(maxRepeatCount), answer);
        acts == run.1 && r == Concluded(run.0, SlotReply)
    {
      acts := [];
      var remote := GetRemote(slot, keySet);
      if remote.Err? {
        return Thrown(remote.error), acts;
      }
      var c;
      c, acts := RunCustomLists(commands, delay, repeatCount, Some(maxRepeatCount), answer);
      r := Concluded(c, SlotReply);
    }

    /**
     * `enterRemoteCommandSequence`: a missing or empty list, or a missing key
     * set, is refused; the entries are read in turn, and only what the last
     * one leaves is handed to `enterCustomKeySequence`.
     */
    method EnterRemoteCommandSequence(slot: string, keySet: Option<string>, commandList: Option<seq<Option<string>>>, answer: int -> bool)
      returns (r: Outcome, acts: seq<Act>)
      ensures SlotCheck(slot).Some? ==> r == SlotCheck(slot).value && acts == []
      ensures SlotCheck(slot).None? && (commandList.None? || commandList.value == [] || !(Given(keySet))) ==>
        r == Refused(MissingArgument) && acts == []
      ensures SlotCheck(slot).None? && commandList.Some? && commandList.value != [] && (Given(keySet)) ==>
        var left := LastEntry(commandList.value, 0, ("", "", ""));
        (left.Stop? ==> r == left.outcome && acts == []) &&
        (left.Pass? && RemoteCheck(slot, keySet.value).Some? ==> r == RemoteCheck(slot, keySet.value).value && acts == []) &&
        (left.Pass? && RemoteCheck(slot, keySet.value).None? ==>
           var run := CustomLists(left.value.0, left.value.2, left.value.1, Some(maxRepeatCount), answer);
           acts == run.1 && r == Concluded(run.0, SlotReply))
    {
      acts := [];
      var v := ValidateSlot(slot);
      if v.Some? {
        return v.value, acts;
      }
      var valid := IsStringArgValid([keySet]);
      assert [keySet][0] == keySet;
      if commandList.None? || commandList.value == [] || !valid {
        return Refused(MissingArgument), acts;
      }
      var left := ForwardedStrings(commandList.value);
      if left.Stop? {
        return left.outcome, acts;
      }
      var (commandString, repeatString, delayString) := left.value;
      assert (Given(keySet) && Given(Some(commandString)) && Given(Some(repeatString)) && Given(Some(delayString))) by {
        ForwardedNonEmpty(commandList.value, 0, ("", "", ""));
      }
      r, acts := EnterCustomKeySequence(slot, keySet, Some(commandString), Some(delayString), Some(repeatString), answer);
    }

    /**
     * `tune`: the channel and the delay must be given and the delay must be
     * digits; the remote is then set up (auto-tune from
     * `Boolean.parseBoolean`, the delay through its own range check) and
     * tuned.
     */
    method Tune(slot: string, keySet: string, channel: Option<string>, autoTuneEnabled: Option<string>, delayInMillis: Option<string>,
                answer: Result<bool>)
      returns (r: Outcome, acts: seq<Act>)
      ensures SlotCheck(slot).Some? ==> r == SlotCheck(slot).value && acts == []
      ensures SlotCheck(slot).None? && !(Given(channel) && Given(delayInMillis)) ==> r == Refused(MissingArgument) && acts == []
      ensures SlotCheck(slot).None? && (Given(channel) && Given(delayInMillis)) && !AllDigits(delayInMillis.value) ==>
        r == Refused(NotNumeric) && acts == []
      ensures SlotCheck(slot).None? && (Given(channel) && Given(delayInMillis)) && AllDigits(delayInMillis.value) ==>
        (RemoteCheck(slot, keySet).Some? ==> r == RemoteCheck(slot, keySet).value && acts == []) &&
        (RemoteCheck(slot, keySet).None? ==> TunedAs(channel.value, autoTuneEnabled, delayInMillis.value, answer, SlotReply, r, acts))
    {
      acts := [];
      var v := ValidateSlot(slot);
      if v.Some? {
        return v.value, acts;
      }
      var valid := IsStringArgValid([channel, delayInMillis]);
      if !valid {
        return Refused(MissingArgument), acts;
      }
      GivenTwo(channel, delayInMillis);
      if !AllDigits(delayInMillis.value) {
        return Refused(NotNumeric), acts;
      }
      var remote := GetRemote(slot, keySet);
      if remote.Err? {
        return Thrown(remote.error), acts;
      }
      var autoTune := ParseBoolean(autoTuneEnabled);
      var d := ParseInt(delayInMillis.value);
      if d.Err? {
        return Thrown(d.error), acts;
      }
      if Remote.VerifyDelay(d.value).Err? {
        return Thrown(IllegalArgument), acts;
      }
      acts := [TuneCall(channel.value, autoTune, d.value)];
      r := Answered(answer, SlotReply);
    }

    /** `sendText`: the key set and text must be given, and the text must be digits. */
    method SendText(slot: string, keySet: Option<string>, text: Option<string>, answer: Result<bool>) returns (r: Outcome, acts: seq<Act>)
      ensures SlotCheck(slot).Some? ==> r == SlotCheck(slot).value && acts == []
      ensures SlotCheck(slot).None? && !(Given(keySet) && Given(text)) ==> r == Refused(MissingArgument) && acts == []
      ensures SlotCheck(slot).None? && (Given(keySet) && Given(text)) && !AllDigits(text.value) ==> r == Refused(NotNumeric) && acts == []
      ensures SlotCheck(slot).None? && (Given(keySet) && Given(text)) && AllDigits(text.value) ==>
        (RemoteCheck(slot, keySet.value).Some? ==> r == RemoteCheck(slot, keySet.value).value && acts == []) &&
        (RemoteCheck(slot, keySet.value).None? ==> acts == [SendTextCall(text.value)] && r == Answered(answer, SlotReply))
    {
      acts := [];
      var v := ValidateSlot(slot);
      if v.Some? {
        return v.value, acts;
      }
      var valid := IsStringArgValid([keySet, text]);
      if !valid {
        return Refused(MissingArgument), acts;
      }
      GivenTwo(keySet, text);
      if !AllDigits(text.value) {
        return Refused(NotNumeric), acts;
      }
      var remote := GetRemote(slot, keySet.value);
      if remote.Err? {
        return Thrown(remote.error), acts;
      }
      acts := [SendTextCall(text.value)];
      r := Answered(answer, SlotReply);
    }

    /** `sendIR`: false for every slot that passes the check; nothing is sent. */
    method SendIR(slot: string) returns (r: Checked<bool>)
      ensures SlotCheck(slot).Some? ==> r == Stop(SlotCheck(slot).value)
      ensures SlotCheck(slot).None? ==> r == Pass(false)
    {
      var v := ValidateSlot(slot);
      if v.Some? {
        return Stop(v.value);
      }
      r := Pass(false);
    }

    /** `seq`: the key set and shorthand must be given; the shorthand's keys are pressed with the delay between them. */
    method Seq(slot: string, keySet: Option<string>, command: Option<string>, delay: int, answer: Result<bool>) returns (r: Outcome, acts: seq<Act>)
      ensures SlotCheck(slot).Some? ==> r == SlotCheck(slot).value && acts == []
      ensures SlotCheck(slot).None? && !(Given(keySet) && Given(command)) ==> r == Refused(MissingArgument) && acts == []
      ensures SlotCheck(slot).None? && (Given(keySet) && Given(command)) ==>
        (RemoteCheck(slot, keySet.value).Some? ==> r == RemoteCheck(slot, keySet.value).value && acts == []) &&
        (RemoteCheck(slot, keySet.value).None? ==>
           acts == [PressKeysCall(Shorthand.Keys(command.value), delay)] && r == Answered(answer, SlotReply))
    {
      acts := [];
      var v := ValidateSlot(slot);
      if v.Some? {
        return v.value, acts;
      }
      var valid := IsStringArgValid([keySet, command]);
      if !valid {
        return Refused(MissingArgument), acts;
      }
      GivenTwo(keySet, command);
      var commands := Shorthand.CommandFromSequence(command.value);
      var remote := GetRemote(slot, keySet.value);
      if remote.Err? {
        return Thrown(remote.error), acts;
      }
      acts := [PressKeysCall(commands, delay)];
      r := Answered(answer, SlotReply);
    }
  }

  /** What every forwarded string holds: a token and the ',' after it, so none is empty. */
  lemma {:induction false} ForwardedNonEmpty(commandList: seq<Option<string>>, i: nat, current: (string, string, string))
    requires i <= |commandList|
    requires i < |commandList| || (current.0 != "" && current.1 != "" && current.2 != "")
    requires LastEntry(commandList, i, current).Pass?
    ensures var left := LastEntry(commandList, i, current).value; left.0 != "" && left.1 != "" && left.2 != ""
    decreases |commandList| - i
  {
    if i < |commandList| {
      var next := EntryStrings(commandList[i]).value;
      ForwardedNonEmpty(commandList, i + 1, next);
    }
  }

  /** What `tune` does once it has the remote: the auto-tune flag, the delay, then the tune itself. */
  predicate TunedAs(channel: string, autoTuneEnabled: Option<string>, delayInMillis: string, answer: Result<bool>,
                    reply: bool -> Reply, r: Outcome, acts: seq<Act>)
  {
    match ParseInt(delayInMillis)
    case Err(x) => r == Thrown(x) && acts == []
    case Ok(d) =>
      if Remote.VerifyDelay(d).Err? then r == Thrown(IllegalArgument) && acts == []
      else acts == [TuneCall(channel, ParseBoolean(autoTuneEnabled), d)] && r == Answered(answer, reply)
  }

  /** A tune that gets as far as the remote's answer had a delay of digits within the remote's bound. */
  lemma TunedWithinBound(channel: string, autoTuneEnabled: Option<string>, delayInMillis: string, answer: Result<bool>,
                         reply: bool -> Reply, r: Outcome, acts: seq<Act>)
    requires TunedAs(channel, autoTuneEnabled, delayInMillis, answer, reply, r, acts)
    requires AllDigits(delayInMillis) && acts != []
    ensures DigitsValue(delayInMillis) <= Remote.MAX_DELAY
    ensures acts == [TuneCall(channel, ParseBoolean(autoTuneEnabled), DigitsValue(delayInMillis))]
  {
    ParseDigitsOrOverflow(delayInMillis);
  }

  // ------------------------------------------------------------ IRDeviceResource

  /** The controller under "{device}/{port}": a remote named by its device number and port. */
  class IRDeviceResource {
    const processor: Processor.RemoteProcessor

    constructor (processor: Processor.RemoteProcessor)
      ensures this.processor == processor
    {
      this.processor := processor;
    }

    /**
     * `validateDeviceAndPort(device, port)`: the device's port count is looked
     * up first (so a device that is not a number throws before anything is
     * refused), then the device number and the port are checked in turn.
     */
    function ValidateDeviceAndPort(device: string, port: string): (v: Option<Outcome>)
      reads processor
      ensures ParseInt(device).Err? ==> v == Some(Thrown(NumberFormat))
      ensures ParseInt(device).Ok? ==>
        var n := ParseInt(device).value;
        (!(1 <= n <= |processor.irDeviceList|) ==> v == Some(Refused(InvalidDevice))) &&
        (1 <= n <= |processor.irDeviceList| && ParseInt(port).Err? ==> v == Some(Thrown(NumberFormat))) &&
        (1 <= n <= |processor.irDeviceList| && ParseInt(port).Ok? ==>
           (v.None? <==> 1 <= ParseInt(port).value <= processor.irDeviceList[n - 1].MaxPorts()) &&
           (v.Some? ==> v == Some(Refused(InvalidPort))))
    {
      var maxPorts := processor.FindMaxPortsOfDevice(device);
      if maxPorts.Err? then Some(Thrown(maxPorts.error))
      else if processor.ValidateDevice(device) != Ok(true) then Some(Refused(InvalidDevice))
      else match processor.DeviceHasPort(device, port)
        case Err(x) => Some(Thrown(x))
        case Ok(hasPort) => if hasPort then None else Some(Refused(InvalidPort))
    }

    /** How `getRemote(device, port, keySet)` ends the request, if it does. */
    function RemoteCheck(device: string, port: string, keySet: string): Option<Outcome>
      reads processor.irConfig, processor.irConfig.Blocks()
    {
      RemoteVerdict(DeviceRemote(processor, device, port, keySet))
    }

    /** `getRemote(device, port, keySet)`: both numbers parsed, then the processor's remote for them. */
    method GetRemote(device: string, port: string, keySet: string) returns (r: Result<Processor.RemoteRequest>)
      ensures r == DeviceRemote(processor, device, port, keySet)
    {
      var deviceId := ParseInt(device);
      if deviceId.Err? {
        return Err(deviceId.error);
      }
      var irPort := ParseInt(port);
      if irPort.Err? {
        return Err(irPort.error);
      }
      r := processor.GetRemoteOfDevice(deviceId.value, irPort.value, keySet);
    }

    /** `get`: the device and port echoed back once both are valid. */
    method Get(device: string, port: string) returns (r: Outcome)
      ensures ValidateDeviceAndPort(device, port).Some? ==> r == ValidateDeviceAndPort(device, port).value
      ensures ValidateDeviceAndPort(device, port).None? ==>
        r == Replied(Reply(OK, Some("IR [Device=" + device + ", Port=" + port + "]")))
    {
      var v := ValidateDeviceAndPort(device, port);
      if v.Some? {
        return v.value;
      }
      r := Replied(Reply(OK, Some("IR [Device=" + device + ", Port=" + port + "]")));
    }

    /** `pressKey`: no argument check and no catch; 200 true or 500 false. */
    method PressKey(device: string, port: string, keySet: string, command: string, answer: Result<bool>) returns (r: Outcome, acts: seq<Act>)
      ensures ValidateDeviceAndPort(device, port).Some? ==> r == ValidateDeviceAndPort(device, port).value && acts == []
      ensures ValidateDeviceAndPort(device, port).None? && RemoteCheck(device, port, keySet).Some? ==>
        r == RemoteCheck(device, port, keySet).value && acts == []
      ensures ValidateDeviceAndPort(device, port).None? && RemoteCheck(device, port, keySet).None? ==>
        acts == [PressKeyCall(command)] && r == Answered(answer, DeviceReply)
    {
      acts := [];
      var v := ValidateDeviceAndPort(device, port);
      if v.Some? {
        return v.value, acts;
      }
      var remote := GetRemote(device, port, keySet);
      if remote.Err? {
        return Thrown(remote.error), acts;
      }
      acts := [PressKeyCall(command)];
      r := Answered(answer, DeviceReply);
    }

    /** `pressKeys`: the remote's `pressKey(commandList, delay)`. */
    method PressKeys(device: string, port: string, keySet: string, commandList: string, delay: int, answer: Result<bool>)
      returns (r: Outcome, acts: seq<Act>)
      ensures ValidateDeviceAndPort(device, port).Some? ==> r == ValidateDeviceAndPort(device, port).value && acts == []
      ensures ValidateDeviceAndPort(device, port).None? && RemoteCheck(device, port, keySet).Some? ==>
        r == RemoteCheck(device, port, keySet).value && acts == []
      ensures ValidateDeviceAndPort(device, port).None? && RemoteCheck(device, port, keySet).None? ==>
        acts == [PressListCall(commandList, delay)] && r == Answered(answer, DeviceReply)
    {
      acts := [];
      var v := ValidateDeviceAndPort(device, port);
      if v.Some? {
        return v.value, acts;
      }
      var remote := GetRemote(device, port, keySet);
      if remote.Err? {
        return Thrown(remote.error), acts;
      }
      acts := [PressListCall(commandList, delay)];
      r := Answered(answer, DeviceReply);
    }

    /**
     * `pressKeyAndHold`: the hold time must be digits, but there is no cap,
     * and it is parsed only once the remote is obtained, so a hold time past
     * the `int` range throws after that.
     */
    method PressKeyAndHold(device: string, port: string, keySet: Option<string>, command: Option<string>, holdTime: Option<string>,
                           answer: Result<bool>)
      returns (r: Outcome, acts: seq<Act>)
      ensures ValidateDeviceAndPort(device, port).Some? ==> r == ValidateDeviceAndPort(device, port).value && acts == []
      ensures ValidateDeviceAndPort(device, port).None? && !(Given(keySet) && Given(command) && Given(holdTime)) ==>
        r == Refused(MissingArgument) && acts == []
      ensures ValidateDeviceAndPort(device, port).None? && (Given(keySet) && Given(command) && Given(holdTime)) ==>
        (!AllDigits(holdTime.value) ==> r == Refused(NotNumeric) && acts == []) &&
        (AllDigits(holdTime.value) && RemoteCheck(device, port, keySet.value).Some? ==>
           r == RemoteCheck(device, port, keySet.value).value && acts == []) &&
        (AllDigits(holdTime.value) && RemoteCheck(device, port, keySet.value).None? ==>
           (DigitsValue(holdTime.value) > INT_MAX ==> r == Thrown(NumberFormat) && acts == []) &&
           (DigitsValue(holdTime.value) <= INT_MAX ==>
              acts == [HoldCall(command.value, DigitsValue(holdTime.value))] && r == Answered(answer, DeviceReply)))
    {
      acts := [];
      var v := ValidateDeviceAndPort(device, port);
      if v.Some? {
        return v.value, acts;
      }
      var valid := IsStringArgValid([keySet, command, holdTime]);
      if !valid {
        return Refused(MissingArgument), acts;
      }
      GivenThree(keySet, command, holdTime);
      if !AllDigits(holdTime.value) {
        return Refused(NotNumeric), acts;
      }
      var remote := GetRemote(device, port, keySet.value);
      if remote.Err? {
        return Thrown(remote.error), acts;
      }
      ParseDigitsOrOverflow(holdTime.value);
      var count := ParseInt(holdTime.value);
      if count.Err? {
        return Thrown(count.error), acts;
      }
      acts := [HoldCall(command.value, count.value)];
      r := Answered(answer, DeviceReply);
    }

    /** `pressKeyAndHoldDuration`: the duration must be present; it is not checked against any timeout. */
    method PressKeyAndHoldDuration(device: string, port: string, keySet: Option<string>, command: Option<string>, durationSec: Option<int>,
                                   answer: Result<bool>)
      returns (r: Outcome, acts: seq<Act>)
      ensures ValidateDeviceAndPort(device, port).Some? ==> r == ValidateDeviceAndPort(device, port).value && acts == []
      ensures ValidateDeviceAndPort(device, port).None? && !(Given(keySet) && Given(command)) ==> r == Refused(MissingArgument) && acts == []
      ensures ValidateDeviceAndPort(device, port).None? && (Given(keySet) && Given(command)) && durationSec.None? ==>
        r == Refused(MissingHoldTime) && acts == []
      ensures ValidateDeviceAndPort(device, port).None? && (Given(keySet) && Given(command)) && durationSec.Some? ==>
        (RemoteCheck(device, port, keySet.value).Some? ==> r == RemoteCheck(device, port, keySet.value).value && acts == []) &&
        (RemoteCheck(device, port, keySet.value).None? ==>
           acts == [HoldDurationCall(command.value, durationSec.value)] && r == Answered(answer, DeviceReply))
    {
      acts := [];
      var v := ValidateDeviceAndPort(device, port);
      if v.Some? {
        return v.value, acts;
      }
      var valid := IsStringArgValid([keySet, command]);
      if !valid {
        return Refused(MissingArgument), acts;
      }
      GivenTwo(keySet, command);
      if durationSec.None? {
        return Refused(MissingHoldTime), acts;
      }
      var remote := GetRemote(device, port, keySet.value);
      if remote.Err? {
        return Thrown(remote.error), acts;
      }
      acts := [HoldDurationCall(command.value, durationSec.value)];
      r := Answered(answer, DeviceReply);
    }

    /**
     * `enterCustomKeySequence`: as on the slot controller, but with no cap on
     * the repeat counts, and a failed key press is a 500.
     */
    method EnterCustomKeySequence(device: string, port: string, keySet: Option<string>, commands: Option<string>, delay: Option<string>,
                                  repeatCount: Option<string>, answer: int -> bool)
      returns (r: Outcome, acts: seq<Act>)
      ensures ValidateDeviceAndPort(device, port).Some? ==> r == ValidateDeviceAndPort(device, port).value && acts == []
      ensures ValidateDeviceAndPort(device, port).None? && !(Given(keySet) && Given(commands) && Given(repeatCount) && Given(delay)) ==>
        r == Refused(MissingArgument) && acts == []
      ensures ValidateDeviceAndPort(device, port).None? && (Given(keySet) && Given(commands) && Given(repeatCount) && Given(delay)) ==>
        (RemoteCheck(device, port, keySet.value).Some? ==> r == RemoteCheck(device, port, keySet.value).value && acts == []) &&
        (RemoteCheck(device, port, keySet.value).None? ==>
           var run := CustomLists(commands.value, delay.value, repeatCount.value, None, answer);
           acts == run.1 && r == Concluded(run.0, DeviceReply))
    {
      acts := [];
      var v := ValidateDeviceAndPort(device, port);
      if v.Some? {
        return v.value, acts;
      }
      var valid := IsStringArgValid([keySet, commands, repeatCount, delay]);
      if !valid {
        return Refused(MissingArgument), acts;
      }
      GivenFour(keySet, commands, repeatCount, delay);
      r, acts := CustomKeySequenceWithRemote(device, port, keySet.value, commands.value, delay.value, repeatCount.value, answer);
    }

    /** The part of `enterCustomKeySequence` after its argument check: the remote, then the lists and the key loop. */
    method CustomKeySequenceWithRemote(device: string, port: string, keySet: string, commands: string, delay: string, repeatCount: string, answer: int -> bool)
      returns (r: Outcome, acts: seq<Act>)
      ensures RemoteCheck(device, port, keySet).Some? ==> r == RemoteCheck(device, port, keySet).value && acts == []
      ensures RemoteCheck(device, port, keySet).None? ==>
        var run := CustomLists(commands, delay, repeatCount, None, answer);
        acts == run.1 && r == Concluded(run.0, DeviceReply)
    {
      acts := [];
      var remote := GetRemote(device, port, keySet);
      if remote.Err? {
        return Thrown(remote.error), acts;
      }
      var c;
      c, acts := RunCustomLists(commands, delay, repeatCount, None, answer);
      r := Concluded(c, DeviceReply);
    }

    /** `enterRemoteCommandSequence`: the last entry's strings, handed to `enterCustomKeySequence`. */
    method EnterRemoteCommandSequence(device: string, port: string, keySet: Option<string>, commandList: Option<seq<Option<string>>>,
                                      answer: int -> bool)
      returns (r: Outcome, acts: seq<Act>)
      ensures ValidateDeviceAndPort(device, port).Some? ==> r == ValidateDeviceAndPort(device, port).value && acts == []
      ensures ValidateDeviceAndPort(device, port).None? && (commandList.None? || commandList.value == [] || !Given(keySet)) ==>
        r == Refused(MissingArgument) && acts == []
      ensures ValidateDeviceAndPort(device, port).None? && commandList.Some? && commandList.value != [] && Given(keySet) ==>
        var left := LastEntry(commandList.value, 0, ("", "", ""));
        (left.Stop? ==> r == left.outcome && acts == []) &&
        (left.Pass? && RemoteCheck(device, port, keySet.value).Some? ==> r == RemoteCheck(device, port, keySet.value).value && acts == []) &&
        (left.Pass? && RemoteCheck(device, port, keySet.value).None? ==>
           var run := CustomLists(left.value.0, left.value.2, left.value.1, None, answer);
           acts == run.1 && r == Concluded(run.0, DeviceReply))
    {
      acts := [];
      var v := ValidateDeviceAndPort(device, port);
      if v.Some? {
        return v.value, acts;
      }
      var valid := IsStringArgValid([keySet]);
      assert [keySet][0] == keySet;
      if commandList.None? || commandList.value == [] || !valid {
        return Refused(MissingArgument), acts;
      }
      var left := ForwardedStrings(commandList.value);
      if left.Stop? {
        return left.outcome, acts;
      }
      var (commandString, repeatString, delayString) := left.value;
      ForwardedNonEmpty(commandList.value, 0, ("", "", ""));
      r, acts := EnterCustomKeySequence(device, port, keySet, Some(commandString), Some(delayString), Some(repeatString), answer);
    }

    /** `tune`: as on the slot controller, with a refused tune answered 500. */
    method Tune(device: string, port: string, keySet: string, channel: Option<string>, autoTuneEnabled: Option<string>,
                delayInMillis: Option<string>, answer: Result<bool>)
      returns (r: Outcome, acts: seq<Act>)
      ensures ValidateDeviceAndPort(device, port).Some? ==> r == ValidateDeviceAndPort(device, port).value && acts == []
      ensures ValidateDeviceAndPort(device, port).None? && !(Given(channel) && Given(delayInMillis)) ==>
        r == Refused(MissingArgument) && acts == []
      ensures ValidateDeviceAndPort(device, port).None? && (Given(channel) && Given(delayInMillis)) && !AllDigits(delayInMillis.value) ==>
        r == Refused(NotNumeric) && acts == []
      ensures ValidateDeviceAndPort(device, port).None? && (Given(channel) && Given(delayInMillis)) && AllDigits(delayInMillis.value) ==>
        (RemoteCheck(device, port, keySet).Some? ==> r == RemoteCheck(device, port, keySet).value && acts == []) &&
        (RemoteCheck(device, port, keySet).None? ==>
           TunedAs(channel.value, autoTuneEnabled, delayInMillis.value, answer, DeviceReply, r, acts))
    {
      acts := [];
      var v := ValidateDeviceAndPort(device, port);
      if v.Some? {
        return v.value, acts;
      }
      var valid := IsStringArgValid([channel, delayInMillis]);
      if !valid {
        return Refused(MissingArgument), acts;
      }
      GivenTwo(channel, delayInMillis);
      if !AllDigits(delayInMillis.value) {
        return Refused(NotNumeric), acts;
      }
      var remote := GetRemote(device, port, keySet);
      if remote.Err? {
        return Thrown(remote.error), acts;
      }
      var autoTune := ParseBoolean(autoTuneEnabled);
      var d := ParseInt(delayInMillis.value);
      if d.Err? {
        return Thrown(d.error), acts;
      }
      if Remote.VerifyDelay(d.value).Err? {
        return Thrown(IllegalArgument), acts;
      }
      acts := [TuneCall(channel.value, autoTune, d.value)];
      r := Answered(answer, DeviceReply);
    }

    /** `sendText`: the key set and text must be given, and the text must be digits. */
    method SendText(device: string, port: string, keySet: Option<string>, text: Option<string>, answer: Result<bool>)
      returns (r: Outcome, acts: seq<Act>)
      ensures ValidateDeviceAndPort(device, port).Some? ==> r == ValidateDeviceAndPort(device, port).value && acts == []
      ensures ValidateDeviceAndPort(device, port).None? && !(Given(keySet) && Given(text)) ==> r == Refused(MissingArgument) && acts == []
      ensures ValidateDeviceAndPort(device, port).None? && (Given(keySet) && Given(text)) && !AllDigits(text.value) ==>
        r == Refused(NotNumeric) && acts == []
      ensures ValidateDeviceAndPort(device, port).None? && (Given(keySet) && Given(text)) && AllDigits(text.value) ==>
        (RemoteCheck(device, port, keySet.value).Some? ==> r == RemoteCheck(device, port, keySet.value).value && acts == []) &&
        (RemoteCheck(device, port, keySet.value).None? ==> acts == [SendTextCall(text.value)] && r == Answered(answer, DeviceReply))
    {
      acts := [];
      var v := ValidateDeviceAndPort(device, port);
      if v.Some? {
        return v.value, acts;
      }
      var valid := IsStringArgValid([keySet, text]);
      if !valid {
        return Refused(MissingArgument), acts;
      }
      GivenTwo(keySet, text);
      if !AllDigits(text.value) {
        return Refused(NotNumeric), acts;
      }
      var remote := GetRemote(device, port, keySet.value);
      if remote.Err? {
        return Thrown(remote.error), acts;
      }
      acts := [SendTextCall(text.value)];
      r := Answered(answer, DeviceReply);
    }

    /** `sendIR`: false for every device and port that pass the check. */
    method SendIR(device: string, port: string) returns (r: Checked<bool>)
      ensures ValidateDeviceAndPort(device, port).Some? ==> r == Stop(ValidateDeviceAndPort(device, port).value)
      ensures ValidateDeviceAndPort(device, port).None? ==> r == Pass(false)
    {
      var v := ValidateDeviceAndPort(device, port);
      if v.Some? {
        return Stop(v.value);
      }
      r := Pass(false);
    }

    /** `seq`: the shorthand's keys pressed with the delay between them. */
    method Seq(device: string, port: string, keySet: Option<string>, command: Option<string>, delay: int, answer: Result<bool>)
      returns (r: Outcome, acts: seq<Act>)
      ensures ValidateDeviceAndPort(device, port).Some? ==> r == ValidateDeviceAndPort(device, port).value && acts == []
      ensures ValidateDeviceAndPort(device, port).None? && !(Given(keySet) && Given(command)) ==> r == Refused(MissingArgument) && acts == []
      ensures ValidateDeviceAndPort(device, port).None? && (Given(keySet) && Given(command)) ==>
        (RemoteCheck(device, port, keySet.value).Some? ==> r == RemoteCheck(device, port, keySet.value).value && acts == []) &&
        (RemoteCheck(device, port, keySet.value).None? ==>
           acts == [PressKeysCall(Shorthand.Keys(command.value), delay)] && r == Answered(answer, DeviceReply))
    {
      acts := [];
      var v := ValidateDeviceAndPort(device, port);
      if v.Some? {
        return v.value, acts;
      }
      var valid := IsStringArgValid([keySet, command]);
      if !valid {
        return Refused(MissingArgument), acts;
      }
      GivenTwo(keySet, command);
      var commands := Shorthand.CommandFromSequence(command.value);
      var remote := GetRemote(device, port, keySet.value);
      if remote.Err? {
        return Thrown(remote.error), acts;
      }
      acts := [PressKeysCall(commands, delay)];
      r := Answered(answer, DeviceReply);
    }
  }
}
