/**
 * `CommandProcessor.commandFromSequence`: a shorthand string, one character
 * per key, becomes the list of key names. Digits give their words, a fixed
 * set of capitals and symbols give navigation keys, 'a'..'d' give the
 * coloured keys "A".."D", and every other character is skipped.
 */
module Shorthand {
  import opened Wrappers
  import opened JavaText
  import Remote

  /** The key name of one shorthand character, None when it has none. */
  function Key(c: char): (r: Option<string>)
    ensures IsAsciiDigit(c) ==> r == Remote.Parse(c)
    ensures 'a' <= c <= 'd' ==> r == Some([UpperChar(c)])
    ensures r.Some? ==> |r.value| > 0
  {
    match c
    case '0' => Some("ZERO")
    case '1' => Some("ONE")
    case '2' => Some("TWO")
    case '3' => Some("THREE")
    case '4' => Some("FOUR")
    case '5' => Some("FIVE")
    case '6' => Some("SIX")
    case '7' => Some("SEVEN")
    case '8' => Some("EIGHT")
    case '9' => Some("NINE")
    case 'U' => Some("UP")
    case 'D' => Some("DOWN")
    case 'L' => Some("LEFT")
    case 'R' => Some("RIGHT")
    case 'M' => Some("MENU")
    case 'G' => Some("GUIDE")
    case 'X' => Some("EXIT")
    case 'S' => Some("SEARCH")
    case 'I' => Some("INFO")
    case 'O' => Some("OK")
    case 'P' => Some("PLAY")
    case 'C' => Some("REC")
    case '[' => Some("CHDN")
    case ']' => Some("CHUP")
    case '<' => Some("PGDN")
    case '>' => Some("PGUP")
    case '~' => Some("LAST")
    case '!' => Some("MUTE")
    case 'a' => Some("A")
    case 'b' => Some("B")
    case 'c' => Some("C")
    case 'd' => Some("D")
    case _ => None
  }

  /** What one character contributes to the list. */
  function Out(c: char): seq<string>
  {
    if Key(c).Some? then [Key(c).value] else []
  }

  /** The key names of a shorthand string, read left to right. */
  function Keys(s: string): seq<string>
    decreases |s|
  {
    if s == [] then [] else Keys(s[..|s| - 1]) + Out(s[|s| - 1])
  }

  /** `commandFromSequence(shortHand)`: the loop over the characters. */
  method CommandFromSequence(shortHand: string) returns (commands: seq<string>)
    ensures commands == Keys(shortHand)
  {
    commands := [];
    var i := 0;
    while i < |shortHand|
      invariant 0 <= i <= |shortHand|
      invariant commands == Keys(shortHand[..i])
    {
      assert shortHand[..i + 1][..i] == shortHand[..i];
      var k := Key(shortHand[i]);
      if k.Some? {
        commands := commands + [k.value];
      }
      i := i + 1;
    }
    assert shortHand[..i] == shortHand;
  }

  // ------------------------------------------------------------ properties

  /** The list of a concatenation is the concatenation of the lists: the output follows the input order. */
  lemma {:induction false} KeysAppend(a: string, b: string)
    ensures Keys(a + b) == Keys(a) + Keys(b)
    decreases |b|
  {
    if b != [] {
      var b' := b[..|b| - 1];
      assert (a + b)[..|a + b| - 1] == a + b';
      KeysAppend(a, b');
    } else {
      assert a + b == a;
    }
  }

  /** The list is never longer than the input, and as long exactly when every character is mapped. */
  lemma {:induction false} KeysLength(s: string)
    ensures |Keys(s)| <= |s|
    ensures |Keys(s)| == |s| <==> forall i :: 0 <= i < |s| ==> Key(s[i]).Some?
    decreases |s|
  {
    if s != [] {
      var s' := s[..|s| - 1];
      KeysLength(s');
      if forall i :: 0 <= i < |s| ==> Key(s[i]).Some? {
        assert forall i :: 0 <= i < |s'| ==> Key(s'[i]).Some? by {
          forall i | 0 <= i < |s'| ensures Key(s'[i]).Some? {
            assert s'[i] == s[i];
          }
        }
      } else if |Keys(s)| == |s| {
        assert Key(s[|s| - 1]).Some?;
        assert |Keys(s')| == |s'|;
        forall i | 0 <= i < |s| ensures Key(s[i]).Some? {
          if i < |s| - 1 {
            assert s'[i] == s[i];
          }
        }
      }
    }
  }

  /** Some character of `s` has the key name `x`. */
  predicate KeyOf(s: string, x: string)
  {
    exists i :: 0 <= i < |s| && Key(s[i]) == Some(x)
  }

  /** Every name in the list is the key of some character of the input: nothing is invented. */
  lemma {:induction false} KeysFrom(s: string)
    ensures forall k :: 0 <= k < |Keys(s)| ==> KeyOf(s, Keys(s)[k])
    decreases |s|
  {
    if s != [] {
      var s' := s[..|s| - 1];
      KeysFrom(s');
      assert Keys(s) == Keys(s') + Out(s[|s| - 1]);
      forall k | 0 <= k < |Keys(s)|
        ensures KeyOf(s, Keys(s)[k])
      {
        if k < |Keys(s')| {
          assert KeyOf(s', Keys(s')[k]);
          var i :| 0 <= i < |s'| && Key(s'[i]) == Some(Keys(s')[k]);
          assert s[i] == s'[i] && Keys(s)[k] == Keys(s')[k];
        } else {
          var i := |s| - 1;
          assert Key(s[i]) == Some(Keys(s)[k]);
        }
      }
    }
  }

  /** On a string of digits the list is the channel's digit words, as `LocalRemote` spells a channel. */
  lemma {:induction false} DigitsAreChannelWords(s: string)
    requires forall i :: 0 <= i < |s| ==> IsAsciiDigit(s[i])
    ensures Keys(s) == Remote.ChannelWords(s)
    decreases |s|
  {
    if s != [] {
      var s' := s[..|s| - 1];
      DigitsAreChannelWords(s');
      var c := s[|s| - 1];
      assert Key(c) == Remote.Parse(c);
      assert Remote.Parse(c) == Some(Remote.DIGIT_WORDS[DigitValue(c)]);
    }
  }

  /** A character without a key leaves the list as it was. */
  lemma SkipUnmapped(a: string, c: char, b: string)
    requires Key(c).None?
    ensures Keys(a + [c] + b) == Keys(a + b)
  {
    assert Keys(a + [c]) == Keys(a) by {
      assert [c][..0] == [];
      assert Keys([c]) == [];
      KeysAppend(a, [c]);
      assert Keys(a) + [] == Keys(a);
    }
    assert Keys(a + [c] + b) == Keys(a + [c]) + Keys(b) by {
      KeysAppend(a + [c], b);
    }
    KeysAppend(a, b);
  }
}
