/**
 * The java.lang.String, Integer and StringTokenizer operations the modelled
 * code relies on, written out with Java's edge cases: `replace` rewrites every
 * occurrence left to right, `split` drops trailing empty strings, `trim` strips
 * every character up to ' ', `parseInt` accepts one optional sign and checks
 * the 32-bit range, and `int` arithmetic wraps around.
 */
module JavaText {
  import opened Wrappers

  const INT_MIN: int := -0x8000_0000
  const INT_MAX: int := 0x7fff_ffff

  predicate IsInt32(n: int) { INT_MIN <= n <= INT_MAX }

  /** Two's-complement wrap-around of a Java `int` result. */
  function Wrap32(n: int): (r: int)
    ensures IsInt32(r)
    ensures (r - n) % 0x1_0000_0000 == 0
    ensures IsInt32(n) ==> r == n
  {
    (n - INT_MIN) % 0x1_0000_0000 + INT_MIN
  }

  /** `String.hashCode`: the characters folded as `31 * h + c` in 32-bit arithmetic. */
  function StringHash(s: string): (h: int)
    ensures IsInt32(h)
    ensures s == [] ==> h == 0
  {
    if s == [] then 0 else Wrap32(31 * StringHash(s[..|s| - 1]) + s[|s| - 1] as int)
  }

  // ---------------------------------------------------------------- digits

  predicate IsAsciiDigit(c: char) { '0' <= c <= '9' }

  /** `s.matches("\\d+")`: one or more ASCII digits. */
  predicate AllDigits(s: string)
  {
    |s| > 0 && forall i :: 0 <= i < |s| ==> IsAsciiDigit(s[i])
  }

  function DigitValue(c: char): (d: nat)
    requires IsAsciiDigit(c)
    ensures d < 10
  {
    (c as int) - ('0' as int)
  }

  function DigitChar(d: nat): (c: char)
    requires d < 10
    ensures IsAsciiDigit(c) && DigitValue(c) == d
  {
    (('0' as int) + d) as char
  }

  /** Decimal value of a (possibly empty) run of ASCII digits. */
  function DigitsValue(s: string): nat
    requires forall i :: 0 <= i < |s| ==> IsAsciiDigit(s[i])
  {
    if s == [] then 0 else DigitsValue(s[..|s| - 1]) * 10 + DigitValue(s[|s| - 1])
  }

  /** The decimal value of a run of characters, None when one of them is not an ASCII digit. */
  function DigitsOf(s: string): Option<nat>
  {
    if s == [] then Some(0)
    else match DigitsOf(s[..|s| - 1])
      case None => None
      case Some(v) => if IsAsciiDigit(s[|s| - 1]) then Some(v * 10 + DigitValue(s[|s| - 1])) else None
  }

  lemma {:induction false} DigitsOfValue(s: string)
    requires forall i :: 0 <= i < |s| ==> IsAsciiDigit(s[i])
    ensures DigitsOf(s) == Some(DigitsValue(s))
  {
    if s != [] {
      DigitsOfValue(s[..|s| - 1]);
    }
  }

  /** `Integer.parseInt(s)`: an optional sign, then ASCII digits, within the `int` range. */
  function ParseInt(s: string): (r: Result<int>)
    ensures r.Ok? ==> IsInt32(r.value)
    ensures |s| == 0 ==> r == Err(NumberFormat)
    ensures r.Err? ==> r.error == NumberFormat
  {
    if |s| == 0 then Err(NumberFormat)
    else
      var digits := if s[0] == '-' || s[0] == '+' then s[1..] else s;
      if |digits| == 0 then Err(NumberFormat)
      else match DigitsOf(digits)
        case None => Err(NumberFormat)
        case Some(v) =>
          var n: int := if s[0] == '-' then -(v as int) else v;
          if IsInt32(n) then Ok(n) else Err(NumberFormat)
  }

  /** A run of digits within range parses to its decimal value. */
  lemma ParseDigits(s: string)
    requires AllDigits(s) && DigitsValue(s) <= INT_MAX
    ensures ParseInt(s) == Ok(DigitsValue(s))
  {
    DigitsOfValue(s);
  }

  /** `Integer.toString(n)` for n >= 0. */
  function NatToString(n: nat): (r: string)
    ensures AllDigits(r)
  {
    if n < 10 then [DigitChar(n)] else NatToString(n / 10) + [DigitChar(n % 10)]
  }

  /** `Integer.toString(n)` / `"" + n`. */
  function IntToString(n: int): string
  {
    if n < 0 then "-" + NatToString(-n) else NatToString(n)
  }

  lemma {:induction false} NatToStringValue(n: nat)
    ensures DigitsValue(NatToString(n)) == n
  {
    var s := NatToString(n);
    if n >= 10 {
      NatToStringValue(n / 10);
      assert s[..|s| - 1] == NatToString(n / 10);
    }
  }

  /** Parsing the decimal rendering of an `int` gives it back. */
  lemma ParseIntToString(n: int)
    requires IsInt32(n)
    ensures ParseInt(IntToString(n)) == Ok(n)
  {
    if n < 0 {
      NatToStringValue(-n);
      assert IntToString(n)[1..] == NatToString(-n);
      DigitsOfValue(NatToString(-n));
    } else {
      NatToStringValue(n);
      DigitsOfValue(NatToString(n));
    }
  }

  // ---------------------------------------------------------- search

  function StartsWith(s: string, p: string): bool { p <= s }

  function EndsWith(s: string, p: string): bool
  {
    |p| <= |s| && s[|s| - |p|..] == p
  }

  /** `s.contains(t)`. */
  predicate Contains(s: string, t: string)
    decreases |s|
  {
    t <= s || (|s| > 0 && Contains(s[1..], t))
  }

  lemma {:induction false} ContainsAt(s: string, t: string, i: nat)
    requires i + |t| <= |s| && s[i..i + |t|] == t
    ensures Contains(s, t)
  {
    if i > 0 {
      assert s[1..][i - 1..i - 1 + |t|] == t;
      ContainsAt(s[1..], t, i - 1);
    }
  }

  lemma {:induction false} ContainsChar(s: string, t: string)
    requires |t| > 0 && t[0] !in s
    ensures !Contains(s, t)
  {
    if |s| > 0 {
      ContainsChar(s[1..], t);
    }
  }

  // ---------------------------------------------------------- case

  function UpperChar(c: char): char
  {
    if 'a' <= c <= 'z' then ((c as int) - 32) as char else c
  }

  /** `s.toUpperCase()` on ASCII letters. */
  function ToUpper(s: string): (r: string)
    ensures |r| == |s|
    ensures forall i :: 0 <= i < |s| ==> r[i] == UpperChar(s[i])
  {
    if s == [] then [] else [UpperChar(s[0])] + ToUpper(s[1..])
  }

  /** `a.equalsIgnoreCase(b)` on ASCII letters. */
  predicate EqualsIgnoreCase(a: string, b: string)
  {
    ToUpper(a) == ToUpper(b)
  }

  // ---------------------------------------------------------- replace

  /** `s.replace("", r)`: `r` before every character and at the end. */
  function InsertAround(s: string, r: string): string
  {
    if s == [] then r else r + [s[0]] + InsertAround(s[1..], r)
  }

  /** `s.replace(target, repl)`: every non-overlapping occurrence, left to right. */
  function Replace(s: string, target: string, repl: string): string
    decreases |s|
  {
    if |target| == 0 then InsertAround(s, repl)
    else if target <= s then repl + Replace(s[|target|..], target, repl)
    else if |s| == 0 then s
    else [s[0]] + Replace(s[1..], target, repl)
  }

  /** A string that does not contain the target is left as it is. */
  lemma {:induction false} ReplaceAbsent(s: string, target: string, repl: string)
    requires |target| > 0 && !Contains(s, target)
    ensures Replace(s, target, repl) == s
  {
    if |s| > 0 {
      ReplaceAbsent(s[1..], target, repl);
    }
  }

  /** Text free of the target's first character passes through unchanged. */
  lemma {:induction false} ReplaceSkip(v: string, rest: string, target: string, repl: string)
    requires |target| > 0 && target[0] !in v
    ensures Replace(v + rest, target, repl) == v + Replace(rest, target, repl)
  {
    if |v| > 0 {
      var s := v + rest;
      assert !(target <= s) by { assert s[0] == v[0]; }
      assert s[1..] == v[1..] + rest;
      assert Replace(s, target, repl) == [s[0]] + Replace(s[1..], target, repl);
      ReplaceSkip(v[1..], rest, target, repl);
      assert v == [v[0]] + v[1..];
    } else {
      assert v + rest == rest;
    }
  }

  /** An occurrence at the front is rewritten. */
  lemma ReplaceHere(rest: string, target: string, repl: string)
    requires |target| > 0
    ensures Replace(target + rest, target, repl) == repl + Replace(rest, target, repl)
  {
    assert (target + rest)[|target|..] == rest;
  }

  /** Strings that disagree at some position before either ends. */
  predicate Diverge(p: string, t: string)
  {
    exists k :: 0 <= k < |p| && k < |t| && p[k] != t[k]
  }

  /** A mismatch at position `k` rules out `t` as a prefix of `s`. */
  lemma MismatchNotPrefix(s: string, t: string, k: nat)
    requires k < |s| && k < |t| && s[k] != t[k]
    ensures !(t <= s)
  {
  }

  /** Another placeholder at the front is kept when it diverges from the target. */
  lemma {:induction false} ReplaceOther(p: string, rest: string, target: string, repl: string)
    requires |p| > 0 && Diverge(p, target) && target[0] !in p[1..]
    ensures Replace(p + rest, target, repl) == p + Replace(rest, target, repl)
  {
    var s := p + rest;
    var k :| 0 <= k < |p| && k < |target| && p[k] != target[k];
    MismatchNotPrefix(s, target, k);
    var tail := Replace(rest, target, repl);
    assert s[1..] == p[1..] + rest;
    ReplaceSkip(p[1..], rest, target, repl);
    calc {
      Replace(s, target, repl);
      [s[0]] + Replace(s[1..], target, repl);
      [p[0]] + (p[1..] + tail);
      { assert p == [p[0]] + p[1..]; }
      p + tail;
    }
  }

  /** A character absent from the string and from the replacement stays absent. */
  lemma {:induction false} ReplaceKeepsOut(s: string, target: string, repl: string, c: char)
    requires |target| > 0 && c !in s && c !in repl
    ensures c !in Replace(s, target, repl)
    decreases |s|
  {
    if target <= s {
      ReplaceKeepsOut(s[|target|..], target, repl, c);
    } else if |s| > 0 {
      ReplaceKeepsOut(s[1..], target, repl, c);
    }
  }

  /** Upper-casing never produces a character that is not a letter from a non-letter. */
  lemma ToUpperKeepsOut(s: string, c: char)
    requires c !in s && !('A' <= c <= 'Z')
    ensures c !in ToUpper(s)
  {
  }

  lemma IntToStringChars(n: int)
    ensures forall i :: 0 <= i < |IntToString(n)| ==> IntToString(n)[i] == '-' || IsAsciiDigit(IntToString(n)[i])
  {
    if n < 0 {
      var d := NatToString(-n);
      assert forall i :: 1 <= i < |IntToString(n)| ==> IntToString(n)[i] == d[i - 1];
    }
  }

  // ---------------------------------------------------------- split

  /** The pieces between the non-overlapping occurrences of `sep`, left to right. */
  function Pieces(s: string, sep: string): (r: seq<string>)
    requires |sep| > 0
    ensures |r| >= 1
    decreases |s|
  {
    if |s| < |sep| then [s]
    else if sep <= s then [""] + Pieces(s[|sep|..], sep)
    else
      var p := Pieces(s[1..], sep);
      [[s[0]] + p[0]] + p[1..]
  }

  function DropTrailingEmpty(ps: seq<string>): (r: seq<string>)
    ensures r <= ps
    ensures r == [] || r[|r| - 1] != ""
  {
    if ps == [] then []
    else if ps[|ps| - 1] == "" then DropTrailingEmpty(ps[..|ps| - 1])
    else ps
  }

  /** `s.split(sep)` for a separator with no regex metacharacters. */
  function Split(s: string, sep: string): (r: seq<string>)
    requires |sep| > 0
  {
    if !Contains(s, sep) then [s] else DropTrailingEmpty(Pieces(s, sep))
  }

  /** Concatenation with `sep` between consecutive parts. */
  function Join(parts: seq<string>, sep: string): string
  {
    if parts == [] then ""
    else if |parts| == 1 then parts[0]
    else parts[0] + sep + Join(parts[1..], sep)
  }

  /** Joining the pieces back with the separator restores the string. */
  lemma {:induction false} JoinPieces(s: string, sep: string)
    requires |sep| > 0
    ensures Join(Pieces(s, sep), sep) == s
    decreases |s|, 1
  {
    if |s| < |sep| {
    } else if sep <= s {
      JoinPiecesAtSep(s, sep);
    } else {
      JoinPiecesOther(s, sep);
    }
  }

  /** The string starts with the separator: an empty piece, then the pieces of the rest. */
  lemma {:induction false} JoinPiecesAtSep(s: string, sep: string)
    requires |sep| > 0 && |s| >= |sep| && sep <= s
    ensures Join(Pieces(s, sep), sep) == s
    decreases |s|, 0
  {
    var q := Pieces(s[|sep|..], sep);
    JoinPieces(s[|sep|..], sep);
    assert Pieces(s, sep) == [""] + q;
    JoinCons("", q, sep);
    assert s == sep + s[|sep|..];
  }

  /** The string does not start with the separator: its first character joins the first piece of the rest. */
  lemma {:induction false} JoinPiecesOther(s: string, sep: string)
    requires |sep| > 0 && |s| >= |sep| && !(sep <= s)
    ensures Join(Pieces(s, sep), sep) == s
    decreases |s|, 0
  {
    var p := Pieces(s[1..], sep);
    JoinPieces(s[1..], sep);
    var x := [s[0]] + p[0];
    assert Pieces(s, sep) == [x] + p[1..];
    if |p| == 1 {
      assert s == [s[0]] + s[1..];
    } else {
      var j := Join(p[1..], sep);
      JoinCons(x, p[1..], sep);
      JoinCons(p[0], p[1..], sep);
      assert [p[0]] + p[1..] == p;
      assert x + sep + j == [s[0]] + (p[0] + sep + j);
      assert s == [s[0]] + s[1..];
    }
  }

  lemma JoinCons(x: string, ps: seq<string>, sep: string)
    requires |ps| >= 1
    ensures Join([x] + ps, sep) == x + sep + Join(ps, sep)
  {
    assert ([x] + ps)[1..] == ps;
  }

  /** A separator made of one character never occurs inside a piece. */
  lemma {:induction false} PiecesFree(s: string, c: char)
    ensures forall i :: 0 <= i < |Pieces(s, [c])| ==> c !in Pieces(s, [c])[i]
  {
    if |s| >= 1 {
      PiecesFree(s[1..], c);
      if s[0] != c {
        var p := Pieces(s[1..], [c]);
        assert Pieces(s, [c]) == [[s[0]] + p[0]] + p[1..];
      }
    }
  }

  /** A piece without the separator's first character stays whole. */
  lemma {:induction false} PiecesNoSep(s: string, sep: string)
    requires |sep| > 0 && sep[0] !in s
    ensures Pieces(s, sep) == [s]
  {
    if |s| >= |sep| {
      PiecesNoSep(s[1..], sep);
      assert s == [s[0]] + s[1..];
    }
  }

  /** Splitting `x + sep + y` at `sep`, with `sep[0]` absent from `x`, gives `x` and then the pieces of `y`. */
  lemma {:induction false} PiecesCons(x: string, sep: string, y: string)
    requires |sep| > 0 && sep[0] !in x
    ensures Pieces(x + sep + y, sep) == [x] + Pieces(y, sep)
  {
    var s := x + sep + y;
    if x == [] {
      assert s == sep + y;
      assert s[|sep|..] == y;
    } else {
      assert s[0] == x[0];
      assert s[1..] == x[1..] + sep + y;
      PiecesCons(x[1..], sep, y);
      assert x == [x[0]] + x[1..];
    }
  }

  /** Parts free of the separator's first character are recovered by splitting their join. */
  lemma {:induction false} PiecesOfJoin(ps: seq<string>, sep: string)
    requires |ps| >= 1 && |sep| > 0
    requires forall i :: 0 <= i < |ps| ==> sep[0] !in ps[i]
    ensures Pieces(Join(ps, sep), sep) == ps
  {
    if |ps| == 1 {
      PiecesNoSep(ps[0], sep);
    } else {
      PiecesOfJoin(ps[1..], sep);
      PiecesCons(ps[0], sep, Join(ps[1..], sep));
    }
  }

  /**
   * `split` undoes `join` when no part holds the separator's first character
   * and the last part is not empty (`split` drops trailing empty strings).
   */
  lemma SplitJoin(ps: seq<string>, sep: string)
    requires |ps| >= 1 && ps[|ps| - 1] != "" && |sep| > 0
    requires forall i :: 0 <= i < |ps| ==> sep[0] !in ps[i]
    ensures Split(Join(ps, sep), sep) == ps
  {
    var s := Join(ps, sep);
    if |ps| == 1 {
      ContainsChar(s, sep);
    } else {
      assert s == ps[0] + sep + Join(ps[1..], sep);
      assert s[|ps[0]|..|ps[0]| + |sep|] == sep;
      ContainsAt(s, sep, |ps[0]|);
      PiecesOfJoin(ps, sep);
    }
  }

  /** A string in which `c` occurs contains `[c]`; the pieces `split` returns are free of `c`. */
  lemma SplitFree(s: string, c: char)
    ensures forall i :: 0 <= i < |Split(s, [c])| ==> c !in Split(s, [c])[i]
  {
    if !Contains(s, [c]) {
      if c in s {
        var k :| 0 <= k < |s| && s[k] == c;
        assert s[k..k + 1] == [c];
        ContainsAt(s, [c], k);
      }
    } else {
      PiecesFree(s, c);
    }
  }

  function DropEmpty(ps: seq<string>): (r: seq<string>)
    ensures forall i :: 0 <= i < |r| ==> r[i] != ""
    ensures |r| <= |ps|
  {
    if ps == [] then []
    else if ps[0] == "" then DropEmpty(ps[1..])
    else [ps[0]] + DropEmpty(ps[1..])
  }

  /** The tokens of `new StringTokenizer(s, [d])`: the non-empty runs between delimiters. */
  function Tokens(s: string, d: char): seq<string>
  {
    DropEmpty(Pieces(s, [d]))
  }

  // ---------------------------------------------------------- trim

  function TrimStart(s: string): (r: string)
    ensures r == [] || r[0] > ' '
    ensures |r| <= |s| && r == s[|s| - |r|..]
  {
    if |s| > 0 && s[0] <= ' ' then TrimStart(s[1..]) else s
  }

  function TrimEnd(s: string): (r: string)
    ensures r == [] || r[|r| - 1] > ' '
    ensures r <= s
  {
    if |s| > 0 && s[|s| - 1] <= ' ' then TrimEnd(s[..|s| - 1]) else s
  }

  /** `s.trim()`: strips every leading and trailing character up to ' '. */
  function Trim(s: string): string
  {
    TrimEnd(TrimStart(s))
  }
}
