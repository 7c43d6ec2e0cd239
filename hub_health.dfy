/**
 * Health of the RedRat hub: the queries `HubHealthCheck` sends, the parsers
 * for the hub's answers, the device beans and their ordering by ip.
 *
 * The hub answers three list queries: its component versions
 * ("Name (1.2), Other (3.4)"), its keysets (one per line between "{" and
 * "}") and its RedRat devices, one line each of the shape
 * `[type] (mac) at ip` with an optional ` (status)` after the ip.
 */
module HubHealth {
  import opened Wrappers
  import opened JavaText
  import Hub

  const LIST_REDRATS: string := "hubQuery=\"list redrats\""
  const LIST_DATASETS: string := "hubQuery=\"list datasets\""
  const HUB_VERSION: string := "hubQuery=\"hub version\""
  const FIRMWARE_VERSION: string := "hardwareQuery=\"firmware version\" ip=\""
  const HARDWARE_TYPE: string := "hardwareQuery=\"hardware type\" ip=\""
  /** The terminator that makes the hub reader stop after one line. */
  const LINE: string := "LINE"

  // ------------------------------------------------------------ the tables

  predicate IsRequest(request: string)
  {
    request in {"listRedRats", "hubVersion", "keysets", "firmwareVersion", "hardwareType"}
  }

  /** `redRatCommands`: the hub command each health request sends. */
  function CommandOf(request: string): (r: Option<string>)
    ensures r.Some? <==> IsRequest(request)
    ensures request == "listRedRats" ==> r == Some(LIST_REDRATS)
    ensures request == "keysets" ==> r == Some(LIST_DATASETS)
    ensures request == "hubVersion" ==> r == Some(HUB_VERSION)
    ensures request == "firmwareVersion" ==> r == Some(FIRMWARE_VERSION)
    ensures request == "hardwareType" ==> r == Some(HARDWARE_TYPE)
  {
    if request == "listRedRats" then Some(LIST_REDRATS)
    else if request == "hubVersion" then Some(HUB_VERSION)
    else if request == "keysets" then Some(LIST_DATASETS)
    else if request == "firmwareVersion" then Some(FIRMWARE_VERSION)
    else if request == "hardwareType" then Some(HARDWARE_TYPE)
    else None
  }

  /**
   * `endChars`: where the hub reader stops. Both list answers end with "}",
   * the version list with ")", the per-device queries after one line.
   */
  function EndCharOf(request: string): (r: Option<string>)
    ensures r.Some? <==> IsRequest(request)
    ensures request in {"listRedRats", "keysets"} ==> r == Some("}")
    ensures request == "hubVersion" ==> r == Some(")")
    ensures request in {"firmwareVersion", "hardwareType"} ==> r == Some(LINE)
  {
    if request == "listRedRats" || request == "keysets" then Some("}")
    else if request == "hubVersion" then Some(")")
    else if request == "firmwareVersion" || request == "hardwareType" then Some(LINE)
    else None
  }

  /** Every request with a command has a terminator, so the default prompt is never used. */
  lemma EveryCommandFramed(request: string)
    ensures CommandOf(request).Some? <==> EndCharOf(request).Some?
  {
  }

  // ------------------------------------------------------------ keysets

  /**
   * `parseKeysets`: the lines of the answer without the first ("{") and the
   * last ("}"), kept as they are (its trim loop assigns to a copy). A single
   * line ("{}") gives no keysets; an answer that splits into no lines at all
   * (only line breaks) fails on `remove(0)`.
   */
  function ParseKeysets(rawKeysets: string): (r: Result<seq<string>>)
    ensures |Split(rawKeysets, "\n")| == 0 <==> r == Err(IndexOutOfBounds)
    ensures |Split(rawKeysets, "\n")| == 1 ==> r == Ok([])
    ensures r.Ok? ==> |r.value| == if |Split(rawKeysets, "\n")| <= 1 then 0 else |Split(rawKeysets, "\n")| - 2
  {
    var keysets := Split(rawKeysets, "\n");
    if |keysets| == 1 then Ok([])
    else if |keysets| == 0 then Err(IndexOutOfBounds)
    else Ok(keysets[1..|keysets| - 1])
  }

  /** The answer block "{", one keyset per line, "}". */
  function KeysetBlock(keysets: seq<string>): string
  {
    Join(["{"] + keysets + ["}"], "\n")
  }

  /** Keysets written one per line between the braces are read back unchanged, spaces included. */
  lemma KeysetsRoundTrip(keysets: seq<string>)
    requires forall i :: 0 <= i < |keysets| ==> '\n' !in keysets[i]
    ensures ParseKeysets(KeysetBlock(keysets)) == Ok(keysets)
  {
    var lines := ["{"] + keysets + ["}"];
    forall i | 0 <= i < |lines|
      ensures '\n' !in lines[i]
    {
      if 0 < i < |lines| - 1 {
        assert lines[i] == keysets[i - 1];
      }
    }
    SplitJoin(lines, "\n");
    assert lines[1..|lines| - 1] == keysets;
  }

  // ------------------------------------------------------------ hub version

  /**
   * One component of the version answer: the first space-separated token,
   * trimmed, names it; the second, trimmed and without its first and last
   * characters, is an index error (None).
   */
  function ComponentOf(component: string): Option<(string, string)>
  {
    var parts := Split(component, " ");
    if |parts| < 2 then None
    else
      var version := Trim(parts[1]);
      if |version| < 2 then None
      else Some((Trim(parts[0]), version[1..|version| - 1]))
  }

  /** Every component parsed, in order. */
  function Components(components: seq<string>): (r: seq<Option<(string, string)>>)
    ensures |r| == |components|
  {
    seq(|components|, i requires 0 <= i < |components| => ComponentOf(components[i]))
  }

  /**
   * The map the loop of `parseHubVersion` builds from the parsed components:
   * the first bad component stops it, and a later name overwrites an earlier one.
   */
  function Fold(parsed: seq<Option<(string, string)>>): Result<map<string, string>>
  {
    if parsed == [] then Ok(map[])
    else
      match Fold(parsed[..|parsed| - 1])
      case Err(e) => Err(e)
      case Ok(m) =>
        match parsed[|parsed| - 1]
        case None => Err(IndexOutOfBounds)
        case Some(nv) => Ok(m[nv.0 := nv.1])
  }

  /**
   * The loop succeeds exactly when every component is well formed, and then
   * the names in the map are exactly the component names.
   */
  lemma {:induction false} FoldNames(parsed: seq<Option<(string, string)>>)
    ensures Fold(parsed).Ok? <==> forall i :: 0 <= i < |parsed| ==> parsed[i].Some?
    ensures Fold(parsed).Err? ==> Fold(parsed).error == IndexOutOfBounds
    ensures Fold(parsed).Ok? ==> Fold(parsed).value.Keys == set p | p in parsed && p.Some? :: p.value.0
  {
    if parsed != [] {
      var n := |parsed| - 1;
      var front := parsed[..n];
      FoldNames(front);
      assert parsed == front + [parsed[n]];
      assert forall i :: 0 <= i < n ==> front[i] == parsed[i];
      if Fold(parsed).Ok? {
        var names := set p | p in parsed && p.Some? :: p.value.0;
        var frontNames := set p | p in front && p.Some? :: p.value.0;
        assert names == frontNames + {parsed[n].value.0};
      }
    }
  }

  /** What `parseHubVersion` returns: no components for "", otherwise one entry per ", "-separated part. */
  function HubVersionOf(rawHubVersion: string): Result<map<string, string>>
  {
    if rawHubVersion == "" then Ok(map[]) else Fold(Components(Split(rawHubVersion, ", ")))
  }

  /** `parseHubVersion`: the loop over the components fills the map in order. */
  method ParseHubVersion(rawHubVersion: string) returns (r: Result<map<string, string>>)
    ensures r == HubVersionOf(rawHubVersion)
  {
    if rawHubVersion == "" {
      return Ok(map[]);
    }
    var hubComponents := Split(rawHubVersion, ", ");
    ghost var parsed := Components(hubComponents);
    var hubVersion: map<string, string> := map[];
    for i := 0 to |hubComponents|
      invariant Fold(parsed[..i]) == Ok(hubVersion)
    {
      assert parsed[..i + 1][..i] == parsed[..i];
      var component := ComponentOf(hubComponents[i]);
      assert parsed[i] == component;
      if component.None? {
        FoldNames(parsed);
        return Err(IndexOutOfBounds);
      }
      hubVersion := hubVersion[component.value.0 := component.value.1];
    }
    assert parsed[..|hubComponents|] == parsed;
    r := Ok(hubVersion);
  }

  /** A component name or version as the hub writes it: no blanks, no commas. */
  predicate Word(s: string)
  {
    forall i :: 0 <= i < |s| ==> s[i] > ' ' && s[i] != ','
  }

  /** The version answer for the given names and versions, "Name (version)" joined by ", ". */
  function VersionText(names: seq<string>, versions: seq<string>): string
    requires |names| == |versions|
  {
    Join(Written(names, versions), ", ")
  }

  function Written(names: seq<string>, versions: seq<string>): (r: seq<string>)
    requires |names| == |versions|
    ensures |r| == |names|
  {
    seq(|names|, i requires 0 <= i < |names| => names[i] + " (" + versions[i] + ")")
  }

  /** The map that results from entering the pairs in order. */
  function Entered(names: seq<string>, versions: seq<string>): map<string, string>
    requires |names| == |versions|
  {
    if names == [] then map[]
    else Entered(names[..|names| - 1], versions[..|versions| - 1])[names[|names| - 1] := versions[|versions| - 1]]
  }

  lemma TrimWord(s: string)
    requires Word(s)
    ensures Trim(s) == s
  {
    if |s| > 0 {
      assert s[0] > ' ' && s[|s| - 1] > ' ';
      assert TrimStart(s) == s;
      assert TrimEnd(s) == s;
    } else {
      assert TrimStart(s) == s;
    }
  }

  lemma SplitPair(x: string, y: string)
    requires ' ' !in x && ' ' !in y && y != ""
    ensures Split(x + " " + y, " ") == [x, y]
  {
    SplitJoin([x, y], " ");
    assert Join([x, y], " ") == x + " " + y;
  }

  lemma WordParenthesised(version: string)
    requires Word(version)
    ensures Word("(" + version + ")")
  {
  }

  lemma ComponentOfPair(name: string, v: string)
    requires Word(name) && Word(v) && |v| >= 2
    ensures ComponentOf(name + " " + v) == Some((name, v[1..|v| - 1]))
  {
    var parts := Split(name + " " + v, " ");
    SplitPair(name, v);
    assert parts[0] == name && parts[1] == v;
    TrimWord(name);
    TrimWord(v);
  }

  lemma ComponentOfWords(name: string, version: string)
    requires Word(name) && Word(version)
    ensures ComponentOf(name + " (" + version + ")") == Some((name, version))
  {
    var v := "(" + version + ")";
    WordParenthesised(version);
    assert name + " (" + version + ")" == name + " " + v;
    ComponentOfPair(name, v);
    assert v[1..|v| - 1] == version;
  }

  /** The components as the parser should read them back. */
  function Pairs(names: seq<string>, versions: seq<string>): (r: seq<Option<(string, string)>>)
    requires |names| == |versions|
    ensures |r| == |names|
  {
    seq(|names|, i requires 0 <= i < |names| => Some((names[i], versions[i])))
  }

  lemma {:induction false} FoldEntered(names: seq<string>, versions: seq<string>)
    requires |names| == |versions|
    ensures Fold(Pairs(names, versions)) == Ok(Entered(names, versions))
  {
    if names != [] {
      var n := |names| - 1;
      FoldEntered(names[..n], versions[..n]);
      assert Pairs(names, versions)[..n] == Pairs(names[..n], versions[..n]);
    }
  }

  /** The version answer splits back into its "Name (version)" parts. */
  lemma WrittenSplit(names: seq<string>, versions: seq<string>)
    requires |names| == |versions| >= 1
    requires forall i :: 0 <= i < |names| ==> Word(names[i]) && Word(versions[i])
    ensures VersionText(names, versions) != ""
    ensures Split(VersionText(names, versions), ", ") == Written(names, versions)
  {
    var parts := Written(names, versions);
    forall i | 0 <= i < |parts|
      ensures ',' !in parts[i]
    {
      assert Word(versions[i]);
    }
    SplitJoin(parts, ", ");
    JoinNonEmpty(parts, ", ");
  }

  /** Each written part parses back to its own name and version. */
  lemma WrittenComponents(names: seq<string>, versions: seq<string>)
    requires |names| == |versions|
    requires forall i :: 0 <= i < |names| ==> Word(names[i]) && Word(versions[i])
    ensures Components(Written(names, versions)) == Pairs(names, versions)
  {
    var parts := Written(names, versions);
    forall i | 0 <= i < |parts|
      ensures Components(parts)[i] == Pairs(names, versions)[i]
    {
      ComponentOfWords(names[i], versions[i]);
    }
  }

  /**
   * The version answer for any list of components reads back as the map
   * that enters them in order, so a repeated name keeps its last version.
   */
  lemma HubVersionRoundTrip(names: seq<string>, versions: seq<string>)
    requires |names| == |versions| >= 1
    requires forall i :: 0 <= i < |names| ==> Word(names[i]) && Word(versions[i])
    ensures HubVersionOf(VersionText(names, versions)) == Ok(Entered(names, versions))
  {
    WrittenSplit(names, versions);
    WrittenComponents(names, versions);
    FoldEntered(names, versions);
  }

  lemma JoinNonEmpty(parts: seq<string>, sep: string)
    requires |parts| >= 1 && parts[0] != ""
    ensures Join(parts, sep) != ""
  {
  }

  // ------------------------------------------------------------ ordering

  /** `String.compareTo`: the difference of the first differing characters, else of the lengths. */
  function CompareStrings(a: string, b: string): (r: int)
    ensures r == 0 <==> a == b
  {
    if a == [] || b == [] then |a| - |b|
    else if a[0] != b[0] then a[0] as int - b[0] as int
    else
      var r := CompareStrings(a[1..], b[1..]);
      assert a == [a[0]] + a[1..] && b == [b[0]] + b[1..];
      r
  }

  lemma {:induction false} CompareAntisymmetric(a: string, b: string)
    ensures CompareStrings(a, b) == -CompareStrings(b, a)
  {
    if a != [] && b != [] && a[0] == b[0] {
      CompareAntisymmetric(a[1..], b[1..]);
    }
  }

  lemma {:induction false} CompareTransitive(a: string, b: string, c: string)
    requires CompareStrings(a, b) <= 0 && CompareStrings(b, c) <= 0
    ensures CompareStrings(a, c) <= 0
  {
    if a != [] && b != [] && c != [] && a[0] == b[0] && b[0] == c[0] {
      CompareTransitive(a[1..], b[1..], c[1..]);
    }
  }

  /** Ip strings compare character by character: "10.0.0.10" sorts before "10.0.0.2". */
  lemma LexicographicNotNumeric()
    ensures CompareStrings("10.0.0.10", "10.0.0.2") < 0
  {
    var a, b := "10.0.0.10", "10.0.0.2";
    assert a[1..][1..][1..][1..][1..][1..][1..] == "10";
    assert b[1..][1..][1..][1..][1..][1..][1..] == "2";
  }

  // ------------------------------------------------------------ device beans

  /** The values a `RedRatDeviceBean` holds. */
  datatype DeviceBean = DeviceBean(deviceType: string, mac: string, ip: string, status: string,
                                   hardwareType: Option<string>, firmwareVersion: Option<string>)

  predicate IpLe(a: DeviceBean, b: DeviceBean)
  {
    CompareStrings(a.ip, b.ip) <= 0
  }

  predicate SortedByIp(ds: seq<DeviceBean>)
  {
    forall i, j :: 0 <= i < j < |ds| ==> IpLe(ds[i], ds[j])
  }

  /** Places `d` before the first bean whose ip is not smaller, so equal ips keep their order. */
  function Insert(d: DeviceBean, ds: seq<DeviceBean>): (r: seq<DeviceBean>)
    ensures multiset(r) == multiset(ds) + multiset{d}
  {
    if ds == [] then [d]
    else if IpLe(d, ds[0]) then [d] + ds
    else
      assert ds == [ds[0]] + ds[1..];
      [ds[0]] + Insert(d, ds[1..])
  }

  /** `Collections.sort` by `compareTo`: a stable sort on the ip strings. */
  function SortByIp(ds: seq<DeviceBean>): (r: seq<DeviceBean>)
    ensures multiset(r) == multiset(ds)
  {
    if ds == [] then []
    else
      assert ds == [ds[0]] + ds[1..];
      Insert(ds[0], SortByIp(ds[1..]))
  }

  lemma {:induction false} InsertSorted(d: DeviceBean, ds: seq<DeviceBean>)
    requires SortedByIp(ds)
    ensures SortedByIp(Insert(d, ds))
  {
    if ds != [] && IpLe(d, ds[0]) {
      forall j | 0 <= j < |ds|
        ensures IpLe(d, ds[j])
      {
        if j > 0 {
          CompareTransitive(d.ip, ds[0].ip, ds[j].ip);
        }
      }
    } else if ds != [] {
      InsertSorted(d, ds[1..]);
      CompareAntisymmetric(d.ip, ds[0].ip);
      var r := Insert(d, ds[1..]);
      assert multiset(r) == multiset(ds[1..]) + multiset{d};
      forall j | 0 <= j < |r|
        ensures IpLe(ds[0], r[j])
      {
        assert r[j] in multiset(r);
        if r[j] != d {
          assert r[j] in multiset(ds[1..]);
          var k :| 0 <= k < |ds[1..]| && ds[1..][k] == r[j];
          assert ds[k + 1] == r[j];
        }
      }
    }
  }

  lemma {:induction false} SortByIpSorted(ds: seq<DeviceBean>)
    ensures SortedByIp(SortByIp(ds))
  {
    if ds != [] {
      SortByIpSorted(ds[1..]);
      InsertSorted(ds[0], SortByIp(ds[1..]));
    }
  }

  /** A sorted list is its own sort. */
  lemma {:induction false} SortByIpSortedFixed(ds: seq<DeviceBean>)
    requires SortedByIp(ds)
    ensures SortByIp(ds) == ds
  {
    if ds != [] {
      SortByIpSortedFixed(ds[1..]);
      if |ds| > 1 {
        assert IpLe(ds[0], ds[1]);
      }
    }
  }

  // ------------------------------------------------------------ device lines

  function IndexOf(s: string, c: char): (r: Option<nat>)
    ensures r.Some? ==> r.value < |s| && s[r.value] == c && c !in s[..r.value]
    ensures r.None? ==> c !in s
  {
    if s == [] then None
    else if s[0] == c then Some(0)
    else
      match IndexOf(s[1..], c)
      case None => None
      case Some(k) => assert s[..k + 1] == [s[0]] + s[1..][..k]; Some(k + 1)
  }

  function LastIndexOf(s: string, c: char): (r: Option<nat>)
    ensures r.Some? ==> r.value < |s| && s[r.value] == c && c !in s[r.value + 1..]
    ensures r.None? ==> c !in s
  {
    if s == [] then None
    else if s[|s| - 1] == c then Some(|s| - 1)
    else
      var r := LastIndexOf(s[..|s| - 1], c);
      assert r.Some? ==> s[r.value + 1..] == s[..|s| - 1][r.value + 1..] + [s[|s| - 1]];
      r
  }

  /** `t` occurs in `s` starting at `i`. */
  predicate OccursAt(s: string, t: string, i: nat)
  {
    i + |t| <= |s| && s[i..i + |t|] == t
  }

  /** The first place `t` occurs in `s`, None when it occurs nowhere. */
  function IndexOfText(s: string, t: string): (r: Option<nat>)
    requires |t| > 0
    ensures r.Some? ==> OccursAt(s, t, r.value)
    ensures r.Some? ==> forall i :: 0 <= i < r.value ==> !OccursAt(s, t, i)
    ensures r.None? ==> forall i :: 0 <= i ==> !OccursAt(s, t, i)
    decreases |s|
  {
    if |s| < |t| then None
    else if t <= s then Some(0)
    else
      assert !OccursAt(s, t, 0);
      ShiftedOccurrences(s, t);
      match IndexOfText(s[1..], t)
      case None => None
      case Some(k) => Some(k + 1)
  }

  /** Past its first character, `t` occurs in `s` where it occurs one place earlier in `s[1..]`. */
  lemma ShiftedOccurrences(s: string, t: string)
    requires |s| > 0
    ensures forall i: nat :: 1 <= i ==> (OccursAt(s, t, i) <==> OccursAt(s[1..], t, i - 1))
  {
    forall i: nat | 1 <= i
      ensures OccursAt(s, t, i) <==> OccursAt(s[1..], t, i - 1)
    {
      if i + |t| <= |s| {
        var w, w' := s[i..i + |t|], s[1..][i - 1..i - 1 + |t|];
        assert |w| == |w'| && forall j :: 0 <= j < |w| ==> w[j] == w'[j];
      }
    }
  }

  lemma {:induction false} IndexOfAfter(x: string, c: char, y: string)
    requires c !in x
    ensures IndexOf(x + [c] + y, c) == Some(|x|)
  {
    if x != [] {
      assert (x + [c] + y)[1..] == x[1..] + [c] + y;
      IndexOfAfter(x[1..], c, y);
    }
  }

  lemma {:induction false} LastIndexOfBefore(x: string, c: char, y: string)
    requires c !in y
    ensures LastIndexOf(x + [c] + y, c) == Some(|x|)
  {
    if y != [] {
      var y' := y[..|y| - 1];
      assert (x + [c] + y)[..|x + [c] + y| - 1] == x + [c] + y';
      LastIndexOfBefore(x, c, y');
    }
  }

  lemma {:induction false} IndexOfTextAfter(x: string, t: string, y: string)
    requires |t| > 0 && t[0] !in x
    ensures IndexOfText(x + t + y, t) == Some(|x|)
  {
    var s := x + t + y;
    if x == [] {
      assert s[..|t|] == t;
    } else {
      assert s[0] == x[0];
      assert s[1..] == x[1..] + t + y;
      IndexOfTextAfter(x[1..], t, y);
    }
  }

  const AT: string := ") at "

  /** The characters `\s` matches. */
  predicate IsBlank(c: char)
  {
    c == ' ' || c == '\t' || c == '\n' || c == '\U{0B}' || c == '\U{0C}' || c == '\r'
  }

  /**
   * The model's reading of `(\[.+\]).+(\(.+\))\sat\s(.+)` for lines of the
   * form the hub writes, "[type] ... (mac) at rest": a line starting with
   * '[', the type up to the first ']', the mac between the last '(' and the
   * first ") at " after it, and the rest of the line. On such lines it picks
   * what `find()` picks (`MatchPartsOfLine`); on others it can differ.
   */
  function MatchParts(line: string): Option<(string, string, string)>
  {
    if |line| == 0 || line[0] != '[' then None
    else
      match IndexOf(line, ']')
      case None => None
      case Some(close) =>
        if close < 2 then None
        else
          var rest := line[close + 1..];
          match IndexOfText(rest, AT)
          case None => None
          case Some(j) =>
            match LastIndexOf(rest[..j], '(')
            case None => None
            case Some(i) =>
              if i < 1 || j - i < 2 || j + |AT| >= |rest| then None
              else Some((line[1..close], rest[i + 1..j], rest[j + |AT|..]))
  }

  /** `ip.matches("(.+)\\s(\\(.+\\))")`: some text, a blank, then a parenthesised word up to the end. */
  predicate HasStatus(tail: string)
  {
    |tail| >= 5 && tail[|tail| - 1] == ')' &&
    exists p :: 1 <= p <= |tail| - 4 && IsBlank(tail[p]) && tail[p + 1] == '('
  }

  /**
   * One line of the device list: no bean when the line does not match; a bean
   * with the mac's '-' written as ':' and the status "" when none follows the
   * ip. With a status, the tail is split at single spaces: the first piece is
   * the ip and the second, without its first and last characters, the status;
   * a tail that does not split that way is an index error.
   */
  function MatchLine(line: string): (r: Result<Option<DeviceBean>>)
    ensures r.Err? ==> r.error == IndexOutOfBounds
    ensures MatchParts(line).None? ==> r == Ok(None)
    ensures r.Ok? && r.value.Some? ==> r.value.value.hardwareType.None? && r.value.value.firmwareVersion.None?
  {
    match MatchParts(line)
    case None => Ok(None)
    case Some(parts) =>
      var (deviceType, mac, tail) := parts;
      if !HasStatus(tail) then Ok(Some(DeviceBean(deviceType, Replace(mac, "-", ":"), tail, "", None, None)))
      else
        var ipAndStatus := Split(tail, " ");
        if |ipAndStatus| < 2 || |ipAndStatus[1]| < 2 then Err(IndexOutOfBounds)
        else
          var status := ipAndStatus[1][1..|ipAndStatus[1]| - 1];
          Ok(Some(DeviceBean(deviceType, Replace(mac, "-", ":"), ipAndStatus[0], status, None, None)))
  }

  predicate Skipped(line: string)
  {
    StartsWith(line, "{") || StartsWith(line, "}")
  }

  /** What one line contributes: nothing for the brace lines, otherwise what the pattern finds. */
  function Step(line: string): (r: Result<Option<DeviceBean>>)
    ensures Skipped(line) ==> r == Ok(None)
  {
    if Skipped(line) then Ok(None) else MatchLine(line)
  }

  function Steps(lines: seq<string>): (r: seq<Result<Option<DeviceBean>>>)
    ensures |r| == |lines|
  {
    seq(|lines|, i requires 0 <= i < |lines| => Step(lines[i]))
  }

  /** The beans the loop of `parseRedRatDeviceList` has collected, in line order; the first failing line stops it. */
  function Gather(steps: seq<Result<Option<DeviceBean>>>): (r: Result<seq<DeviceBean>>)
    ensures r.Ok? ==> |r.value| <= |steps|
  {
    if steps == [] then Ok([])
    else
      match Gather(steps[..|steps| - 1])
      case Err(e) => Err(e)
      case Ok(ds) =>
        match steps[|steps| - 1]
        case Err(e) => Err(e)
        case Ok(None) => Ok(ds)
        case Ok(Some(d)) => Ok(ds + [d])
  }

  /** One more step of `Gather` after a prefix that collected `ds`. */
  lemma GatherNext(steps: seq<Result<Option<DeviceBean>>>, i: nat, ds: seq<DeviceBean>)
    requires i < |steps| && Gather(steps[..i]) == Ok(ds)
    ensures Gather(steps[..i + 1]) ==
      match steps[i]
      case Err(e) => Err(e)
      case Ok(None) => Ok(ds)
      case Ok(Some(d)) => Ok(ds + [d])
  {
    assert steps[..i + 1][..i] == steps[..i];
  }

  /** Once a prefix has failed, the whole list fails the same way. */
  lemma {:induction false} GatherKeepsError(steps: seq<Result<Option<DeviceBean>>>, k: nat)
    requires k <= |steps| && Gather(steps[..k]).Err?
    ensures Gather(steps) == Gather(steps[..k])
  {
    if k < |steps| {
      var n := |steps| - 1;
      assert steps[..n][..k] == steps[..k];
      GatherKeepsError(steps[..n], k);
    } else {
      assert steps[..k] == steps;
    }
  }

  /** What `parseRedRatDeviceList` returns: the collected beans sorted by ip. */
  function DevicesOf(rawRedRatDeviceList: string): (r: Result<seq<DeviceBean>>)
    ensures r.Ok? ==> SortedByIp(r.value)
    ensures r.Ok? ==> Gather(Steps(Split(rawRedRatDeviceList, "\n"))).Ok? &&
                      multiset(r.value) == multiset(Gather(Steps(Split(rawRedRatDeviceList, "\n"))).value)
    ensures r.Err? <==> Gather(Steps(Split(rawRedRatDeviceList, "\n"))).Err?
  {
    match Gather(Steps(Split(rawRedRatDeviceList, "\n")))
    case Err(e) => Err(e)
    case Ok(ds) => SortByIpSorted(ds); Ok(SortByIp(ds))
  }

  /** The collected beans are the ones the lines produced, so none carries a firmware or hardware type. */
  lemma {:induction false} GatherUnqueried(steps: seq<Result<Option<DeviceBean>>>)
    requires forall k :: 0 <= k < |steps| && steps[k].Ok? && steps[k].value.Some? ==>
      steps[k].value.value.firmwareVersion.None? && steps[k].value.value.hardwareType.None?
    ensures Gather(steps).Ok? ==> forall d :: d in Gather(steps).value ==> d.firmwareVersion.None? && d.hardwareType.None?
  {
    if steps != [] {
      GatherUnqueried(steps[..|steps| - 1]);
    }
  }

  /** The parsed device list holds beans with no firmware or hardware type. */
  lemma DevicesUnqueried(rawRedRatDeviceList: string)
    ensures DevicesOf(rawRedRatDeviceList).Ok? ==>
      forall d :: d in DevicesOf(rawRedRatDeviceList).value ==> d.firmwareVersion.None? && d.hardwareType.None?
  {
    var steps := Steps(Split(rawRedRatDeviceList, "\n"));
    GatherUnqueried(steps);
    if DevicesOf(rawRedRatDeviceList).Ok? {
      forall d | d in DevicesOf(rawRedRatDeviceList).value
        ensures d.firmwareVersion.None? && d.hardwareType.None?
      {
        assert d in multiset(Gather(steps).value);
      }
    }
  }

  /** `parseRedRatDeviceList`: one pass over the lines, then the sort. */
  method ParseRedRatDeviceList(rawRedRatDeviceList: string) returns (r: Result<seq<DeviceBean>>)
    ensures r == DevicesOf(rawRedRatDeviceList)
  {
    var splitDevices := Split(rawRedRatDeviceList, "\n");
    ghost var steps := Steps(splitDevices);
    var devices: seq<DeviceBean> := [];
    for i := 0 to |splitDevices|
      invariant Gather(steps[..i]) == Ok(devices)
    {
      GatherNext(steps, i, devices);
      if Skipped(splitDevices[i]) {
        assert steps[i] == Ok(None);
        continue;
      }
      var device := MatchLine(splitDevices[i]);
      assert steps[i] == device;
      if device.Err? {
        GatherKeepsError(steps, i + 1);
        return Err(device.error);
      }
      if device.value.Some? {
        devices := devices + [device.value.value];
      }
    }
    assert steps[..|splitDevices|] == steps;
    r := Ok(SortByIp(devices));
  }

  /** A device line as the hub writes it. */
  function DeviceLine(deviceType: string, mac: string, ip: string, status: string): string
  {
    "[" + deviceType + "] (" + mac + AT + ip + (if status == "" then "" else " (" + status + ")")
  }

  /** A field the hub writes without blanks, brackets or parentheses. */
  predicate Plain(s: string)
  {
    forall i :: 0 <= i < |s| ==> !IsBlank(s[i]) && s[i] !in "[]()"
  }

  /** After the closing bracket: the mac sits between the first " (" and the first ") at ". */
  lemma RestOfLine(mac: string, tail: string)
    requires Plain(mac)
    ensures var rest := " (" + mac + AT + tail;
      IndexOfText(rest, AT) == Some(|mac| + 2) && LastIndexOf(rest[..|mac| + 2], '(') == Some(1) &&
      rest[2..|mac| + 2] == mac && rest[|mac| + 2 + |AT|..] == tail
  {
    var rest := " (" + mac + AT + tail;
    IndexOfTextAfter(" (" + mac, AT, tail);
    assert rest[..|mac| + 2] == " " + ['('] + mac;
    LastIndexOfBefore(" ", '(', mac);
  }

  lemma MatchPartsOfLine(deviceType: string, mac: string, tail: string)
    requires Plain(deviceType) && Plain(mac) && deviceType != "" && mac != "" && tail != ""
    ensures MatchParts("[" + deviceType + "] (" + mac + AT + tail) == Some((deviceType, mac, tail))
  {
    var rest := " (" + mac + AT + tail;
    var line := "[" + deviceType + "] (" + mac + AT + tail;
    assert line == "[" + deviceType + [']'] + rest;
    IndexOfAfter("[" + deviceType, ']', rest);
    var close := |deviceType| + 1;
    assert IndexOf(line, ']') == Some(close);
    assert line[close + 1..] == rest;
    assert line[1..close] == deviceType;
    RestOfLine(mac, tail);
    MatchPartsAt(line, close, |mac| + 2, 1);
  }

  /** `MatchParts` once the closing bracket, the " at " and the '(' before it are found. */
  lemma MatchPartsAt(line: string, close: nat, j: nat, i: nat)
    requires |line| > 0 && line[0] == '[' && IndexOf(line, ']') == Some(close) && close >= 2
    requires IndexOfText(line[close + 1..], AT) == Some(j)
    requires LastIndexOf(line[close + 1..][..j], '(') == Some(i)
    requires i >= 1 && j - i >= 2 && j + |AT| < |line[close + 1..]|
    ensures MatchParts(line) == Some((line[1..close], line[close + 1..][i + 1..j], line[close + 1..][j + |AT|..]))
  {
  }

  lemma PlainNoStatus(ip: string)
    requires Plain(ip)
    ensures !HasStatus(ip)
  {
  }

  lemma StatusTail(ip: string, status: string)
    requires Plain(ip) && Plain(status) && ip != "" && status != ""
    ensures HasStatus(ip + " (" + status + ")")
    ensures Split(ip + " (" + status + ")", " ") == [ip, "(" + status + ")"]
  {
    var tail := ip + " (" + status + ")";
    assert IsBlank(tail[|ip|]) && tail[|ip| + 1] == '(';
    assert tail == ip + " " + ("(" + status + ")");
    SplitJoin([ip, "(" + status + ")"], " ");
    assert Join([ip, "(" + status + ")"], " ") == ip + " " + ("(" + status + ")");
  }

  lemma MatchLineNoStatus(line: string, deviceType: string, mac: string, ip: string)
    requires MatchParts(line) == Some((deviceType, mac, ip)) && Plain(ip)
    ensures MatchLine(line) == Ok(Some(DeviceBean(deviceType, Replace(mac, "-", ":"), ip, "", None, None)))
  {
    PlainNoStatus(ip);
  }

  lemma MatchLineStatus(line: string, deviceType: string, mac: string, ip: string, status: string)
    requires Plain(ip) && Plain(status) && ip != "" && status != ""
    requires MatchParts(line) == Some((deviceType, mac, ip + " (" + status + ")"))
    ensures MatchLine(line) == Ok(Some(DeviceBean(deviceType, Replace(mac, "-", ":"), ip, status, None, None)))
  {
    StatusTail(ip, status);
    var s := "(" + status + ")";
    assert s[1..|s| - 1] == status;
  }

  /**
   * A device line with non-empty plain fields is read back as its bean: the
   * brackets and parentheses go, '-' in the mac becomes ':', and a missing
   * status is "".
   */
  lemma MatchDeviceLine(deviceType: string, mac: string, ip: string, status: string)
    requires Plain(deviceType) && Plain(mac) && Plain(ip) && Plain(status)
    requires deviceType != "" && mac != "" && ip != ""
    ensures MatchLine(DeviceLine(deviceType, mac, ip, status))
         == Ok(Some(DeviceBean(deviceType, Replace(mac, "-", ":"), ip, status, None, None)))
  {
    var line := DeviceLine(deviceType, mac, ip, status);
    if status == "" {
      assert line == "[" + deviceType + "] (" + mac + AT + ip;
      MatchPartsOfLine(deviceType, mac, ip);
      MatchLineNoStatus(line, deviceType, mac, ip);
    } else {
      var tail := ip + " (" + status + ")";
      assert line == "[" + deviceType + "] (" + mac + AT + tail;
      MatchPartsOfLine(deviceType, mac, tail);
      MatchLineStatus(line, deviceType, mac, ip, status);
    }
  }

  /** A bean the hub lists as it is: plain non-empty fields, a mac already written with ':', nothing queried yet. */
  predicate Listable(d: DeviceBean)
  {
    Plain(d.deviceType) && Plain(d.mac) && Plain(d.ip) && Plain(d.status) &&
    d.deviceType != "" && d.mac != "" && d.ip != "" && '-' !in d.mac &&
    d.hardwareType.None? && d.firmwareVersion.None?
  }

  function LinesOf(ds: seq<DeviceBean>): (r: seq<string>)
    ensures |r| == |ds|
  {
    seq(|ds|, i requires 0 <= i < |ds| => DeviceLine(ds[i].deviceType, ds[i].mac, ds[i].ip, ds[i].status))
  }

  /** The lines of the device answer listing `ds`: one per bean between "{" and "}". */
  function ListLines(ds: seq<DeviceBean>): (r: seq<string>)
    ensures |r| == |ds| + 2
  {
    ["{"] + LinesOf(ds) + ["}"]
  }

  /** The device answer listing `ds`. */
  function ListText(ds: seq<DeviceBean>): string
  {
    Join(ListLines(ds), "\n")
  }

  lemma PlainNoNewline(s: string)
    requires Plain(s)
    ensures '\n' !in s
  {
  }

  lemma LineNoNewline(deviceType: string, mac: string, ip: string, status: string)
    requires Plain(deviceType) && Plain(mac) && Plain(ip) && Plain(status)
    ensures '\n' !in DeviceLine(deviceType, mac, ip, status)
  {
    PlainNoNewline(deviceType);
    PlainNoNewline(mac);
    PlainNoNewline(ip);
    PlainNoNewline(status);
    var tail := if status == "" then "" else " (" + status + ")";
    assert '\n' !in tail;
    assert DeviceLine(deviceType, mac, ip, status) == "[" + deviceType + "] (" + mac + AT + ip + tail;
  }

  lemma LineOfListable(d: DeviceBean)
    requires Listable(d)
    ensures Step(DeviceLine(d.deviceType, d.mac, d.ip, d.status)) == Ok(Some(d))
  {
    var line := DeviceLine(d.deviceType, d.mac, d.ip, d.status);
    assert line[0] == '[';
    assert !Skipped(line);
    MatchDeviceLine(d.deviceType, d.mac, d.ip, d.status);
    ContainsChar(d.mac, "-");
    ReplaceAbsent(d.mac, "-", ":");
  }

  function Found(ds: seq<DeviceBean>): (r: seq<Result<Option<DeviceBean>>>)
    ensures |r| == |ds|
  {
    seq(|ds|, i requires 0 <= i < |ds| => Ok(Some(ds[i])))
  }

  lemma {:induction false} GatherFound(ds: seq<DeviceBean>)
    ensures Gather([Ok(None)] + Found(ds)) == Ok(ds)
  {
    if ds != [] {
      var n := |ds| - 1;
      GatherFound(ds[..n]);
      var steps := [Ok(None)] + Found(ds);
      assert steps[..|steps| - 1] == [Ok(None)] + Found(ds[..n]);
      assert ds[..n] + [ds[n]] == ds;
    }
  }

  lemma StepsOfList(ds: seq<DeviceBean>)
    requires forall i :: 0 <= i < |ds| ==> Listable(ds[i])
    ensures Steps(ListLines(ds)) == [Ok(None)] + Found(ds) + [Ok(None)]
  {
    var lines := ListLines(ds);
    var want := [Ok(None)] + Found(ds) + [Ok(None)];
    forall i | 0 <= i < |lines|
      ensures Steps(lines)[i] == want[i]
    {
      if 0 < i < |lines| - 1 {
        assert lines[i] == LinesOf(ds)[i - 1];
        StepOfLine(ds, i - 1);
      } else {
        BraceSteps();
      }
    }
  }

  lemma StepOfLine(ds: seq<DeviceBean>, i: int)
    requires 0 <= i < |ds| && Listable(ds[i])
    ensures Step(LinesOf(ds)[i]) == Ok(Some(ds[i]))
  {
    LineOfListable(ds[i]);
  }

  lemma BraceSteps()
    ensures Step("{") == Ok(None) && Step("}") == Ok(None)
  {
    assert Skipped("{") && Skipped("}");
  }

  lemma GatherList(ds: seq<DeviceBean>)
    ensures Gather([Ok(None)] + Found(ds) + [Ok(None)]) == Ok(ds)
  {
    GatherFound(ds);
    var all := [Ok(None)] + Found(ds) + [Ok(None)];
    assert all[..|all| - 1] == [Ok(None)] + Found(ds);
  }

  /** The device answer splits back into its lines. */
  lemma ListTextSplit(ds: seq<DeviceBean>)
    requires forall i :: 0 <= i < |ds| ==> Listable(ds[i])
    ensures Split(ListText(ds), "\n") == ListLines(ds)
  {
    var lines := ListLines(ds);
    forall i | 0 <= i < |lines|
      ensures '\n' !in lines[i]
    {
      if 0 < i < |lines| - 1 {
        assert lines[i] == LinesOf(ds)[i - 1];
        LineNoNewline(ds[i - 1].deviceType, ds[i - 1].mac, ds[i - 1].ip, ds[i - 1].status);
      }
    }
    SplitJoin(lines, "\n");
  }

  /**
   * The device answer for beans the hub lists as they are reads back as
   * those beans in ip order.
   */
  lemma DeviceListRoundTrip(ds: seq<DeviceBean>)
    requires forall i :: 0 <= i < |ds| ==> Listable(ds[i])
    ensures DevicesOf(ListText(ds)) == Ok(SortByIp(ds))
  {
    ListTextSplit(ds);
    StepsOfList(ds);
    GatherList(ds);
  }

  // ------------------------------------------------------------ the bean object

  /** `RedRatDeviceBean`: type, mac, ip and status, with hardware type and firmware filled in later. */
  class RedRatDeviceBean {
    var deviceType: string
    var mac: string
    var ip: string
    var status: string
    var hardwareType: Option<string>
    var firmwareVersion: Option<string>

    constructor (deviceType: string, mac: string, ip: string, status: string)
      ensures Value() == DeviceBean(deviceType, mac, ip, status, None, None)
    {
      this.deviceType := deviceType;
      this.mac := mac;
      this.ip := ip;
      this.status := status;
      hardwareType := None;
      firmwareVersion := None;
    }

    function Value(): DeviceBean
      reads this
    {
      DeviceBean(deviceType, mac, ip, status, hardwareType, firmwareVersion)
    }

    method SetType(v: string)
      modifies this`deviceType
      ensures Value() == old(Value()).(deviceType := v)
    {
      deviceType := v;
    }

    method SetMac(v: string)
      modifies this`mac
      ensures Value() == old(Value()).(mac := v)
    {
      mac := v;
    }

    method SetIp(v: string)
      modifies this`ip
      ensures Value() == old(Value()).(ip := v)
    {
      ip := v;
    }

    method SetStatus(v: string)
      modifies this`status
      ensures Value() == old(Value()).(status := v)
    {
      status := v;
    }

    method SetHardwareType(v: Option<string>)
      modifies this`hardwareType
      ensures Value() == old(Value()).(hardwareType := v)
    {
      hardwareType := v;
    }

    method SetFirmwareVersion(v: Option<string>)
      modifies this`firmwareVersion
      ensures Value() == old(Value()).(firmwareVersion := v)
    {
      firmwareVersion := v;
    }

    /** `compareTo`: `String.compareTo` of the ips against another bean, -1 against anything else. */
    function CompareTo(o: object?): (r: int)
      reads this, if o is RedRatDeviceBean then {o as RedRatDeviceBean} else {}
      ensures o is RedRatDeviceBean ==> (r <= 0 <==> IpLe(Value(), (o as RedRatDeviceBean).Value()))
      ensures o is RedRatDeviceBean ==> (r == 0 <==> ip == (o as RedRatDeviceBean).ip)
      ensures !(o is RedRatDeviceBean) ==> r == -1
    {
      if o is RedRatDeviceBean then CompareStrings(ip, (o as RedRatDeviceBean).ip) else -1
    }
  }

  /** Two beans compare in opposite directions. */
  lemma CompareToAntisymmetric(a: RedRatDeviceBean, b: RedRatDeviceBean)
    ensures a.CompareTo(b) == -b.CompareTo(a)
  {
    CompareAntisymmetric(a.ip, b.ip);
  }
  // ------------------------------------------------------------ the health bean

  /** A device the hub reports as "connected", in any case. */
  predicate Connected(status: string)
  {
    ToUpper(status) == "CONNECTED"
  }

  /** `Connected` is `status.equalsIgnoreCase("connected")`. */
  lemma ConnectedIgnoringCase(status: string)
    ensures Connected(status) <==> EqualsIgnoreCase(status, "connected")
  {
    var upper := ToUpper("connected");
    assert upper[0] == 'C' && upper[1] == 'O' && upper[2] == 'N' && upper[3] == 'N' && upper[4] == 'E';
    assert upper[5] == 'C' && upper[6] == 'T' && upper[7] == 'E' && upper[8] == 'D';
    assert upper == "CONNECTED";
  }

  /** `HubHealthBean`: what `process` found; a list the hub never delivered stays null. */
  datatype HubHealthBean = HubHealthBean(hubVersion: Option<map<string, string>>, keysets: Option<seq<string>>,
                                         devices: Option<seq<DeviceBean>>, hubUp: bool)

  /** The beans as the parser makes them, before any firmware or hardware query. */
  function Unqueried(ds: seq<DeviceBean>): (r: seq<DeviceBean>)
    ensures |r| == |ds|
  {
    seq(|ds|, k requires 0 <= k < |ds| => ds[k].(hardwareType := None, firmwareVersion := None))
  }

  /** Filling in the queried fields keeps a list sorted, since the order looks only at the ips. */
  lemma SortedUnqueried(ds: seq<DeviceBean>)
    requires SortedByIp(Unqueried(ds))
    ensures SortedByIp(ds)
  {
    forall i, j | 0 <= i < j < |ds|
      ensures IpLe(ds[i], ds[j])
    {
      assert IpLe(Unqueried(ds)[i], Unqueried(ds)[j]);
    }
  }
}
