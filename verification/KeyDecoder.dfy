/** The incremental key decoder: bytes in, one key and the unread rest out, or RUNE_ERROR for more input. */
module KeyDecoder {
  import opened Utf8
  import opened Screen
  import opened LineEditor

  const PASTE_START: seq<byte> := [0x1B, 0x5B, 0x32, 0x30, 0x30, 0x7E]
  const PASTE_END: seq<byte> := [0x1B, 0x5B, 0x32, 0x30, 0x31, 0x7E]

  /** [a-zA-Z~] ends a sequence that is not recognised. */
  predicate IsFinal(c: byte) {
    'a' as int <= c <= 'z' as int || 'A' as int <= c <= 'Z' as int || c == '~' as int
  }

  /** Index of the first final byte at or after `i`, |b| if there is none. */
  function FirstFinal(b: seq<byte>, i: nat): (j: nat)
    requires i <= |b|
    ensures i <= j <= |b|
    ensures j < |b| ==> IsFinal(b[j])
    ensures forall k :: i <= k < j ==> !IsFinal(b[k])
    decreases |b| - i
  {
    if i == |b| || IsFinal(b[i]) then i else FirstFinal(b, i + 1)
  }

  function ControlKey(c: byte): Rune {
    if c == 1 then KEY_HOME
    else if c == 5 then KEY_END
    else if c == 8 then KEY_BACKSPACE
    else if c == 11 then KEY_DELETE_LINE
    else if c == 12 then KEY_CLEAR_SCREEN
    else if c == 23 then KEY_DELETE_WORD
    else if c == 14 then KEY_DOWN
    else if c == 16 then KEY_UP
    else RUNE_ERROR
  }

  /** The three-byte sequences ESC [ c. */
  function ArrowKey(c: byte): Rune {
    if c == 'A' as int then KEY_UP
    else if c == 'B' as int then KEY_DOWN
    else if c == 'C' as int then KEY_RIGHT
    else if c == 'D' as int then KEY_LEFT
    else if c == 'H' as int then KEY_HOME
    else if c == 'F' as int then KEY_END
    else RUNE_ERROR
  }

  /** The six-byte sequences ESC [ 1 ; 3 c and the paste brackets, as far as the mode knows them. */
  function LongKey(b: seq<byte>, paste: bool): Rune
    requires |b| == 6
  {
    if paste then (if b == PASTE_END then KEY_PASTE_END else RUNE_ERROR)
    else if b == [0x1B, 0x5B, 0x31, 0x3B, 0x33, 0x43] then KEY_ALT_RIGHT
    else if b == [0x1B, 0x5B, 0x31, 0x3B, 0x33, 0x44] then KEY_ALT_LEFT
    else if b == PASTE_START then KEY_PASTE_START
    else RUNE_ERROR
  }

  function BytesToKey(b: seq<byte>, paste: bool): (r: (Rune, seq<byte>))
    ensures |r.1| <= |b|
    ensures r.0 != RUNE_ERROR ==> |r.1| < |b|
  {
    if b == [] then (RUNE_ERROR, [])
    else if !paste && ControlKey(b[0]) != RUNE_ERROR then (ControlKey(b[0]), b[1..])
    else if b[0] != ESC then
      if !FullRune(b) then (RUNE_ERROR, b)
      else (DecodeRune(b).0, b[DecodeRune(b).1..])
    else if !paste && |b| >= 3 && b[1] == BRACKET && ArrowKey(b[2]) != RUNE_ERROR then (ArrowKey(b[2]), b[3..])
    else if |b| >= 6 && LongKey(b[..6], paste) != RUNE_ERROR then (LongKey(b[..6], paste), b[6..])
    else
      var i := FirstFinal(b, 0);
      if i < |b| then (KEY_UNKNOWN, b[i + 1..]) else (RUNE_ERROR, b)
  }

  /** What is left is the end of what was there. */
  lemma RestIsSuffix(b: seq<byte>, paste: bool)
    ensures var r := BytesToKey(b, paste).1;
            r == b[|b| - |r|..]
  {
    hide FullRune, LongKey, FirstFinal;
  }

  // ---- A decoded key does not depend on what follows ----

  lemma FullRuneExtend(b: seq<byte>, c: seq<byte>)
    requires FullRune(b)
    ensures FullRune(b + c) && DecodeRune(b + c) == DecodeRune(b)
  {
    var bc := b + c;
    assert forall i :: 0 <= i < |b| ==> bc[i] == b[i];
  }

  lemma {:induction false} FirstFinalExtend(b: seq<byte>, c: seq<byte>, i: nat)
    requires i <= |b| && FirstFinal(b, i) < |b|
    ensures FirstFinal(b + c, i) == FirstFinal(b, i)
    decreases |b| - i
  {
    if !IsFinal(b[i]) {
      FirstFinalExtend(b, c, i + 1);
    }
  }

  /** A long sequence contains no final byte before its last one. */
  lemma LongKeyShape(b: seq<byte>, i: nat, paste: bool)
    requires |b| == 6 && i < 5 && IsFinal(b[i])
    ensures LongKey(b, paste) == RUNE_ERROR
  {
  }

  lemma KeyPrefixStable(b: seq<byte>, c: seq<byte>, paste: bool)
    requires BytesToKey(b, paste).0 != RUNE_ERROR
    ensures BytesToKey(b + c, paste) == (BytesToKey(b, paste).0, BytesToKey(b, paste).1 + c)
  {
    hide FullRune, DecodeRune, LongKey, FirstFinal, ArrowKey, ControlKey;
    var bc := b + c;
    assert bc[0] == b[0];
    if !paste && ControlKey(b[0]) != RUNE_ERROR {
      assert bc[1..] == b[1..] + c;
    } else if b[0] != ESC {
      FullRuneExtend(b, c);
      var n := DecodeRune(b).1;
      assert bc[n..] == b[n..] + c;
    } else if !paste && |b| >= 3 && b[1] == BRACKET && ArrowKey(b[2]) != RUNE_ERROR {
      assert bc[3..] == b[3..] + c;
    } else if |b| >= 6 && LongKey(b[..6], paste) != RUNE_ERROR {
      assert bc[..6] == b[..6] && bc[6..] == b[6..] + c;
    } else {
      var i := FirstFinal(b, 0);
      FirstFinalExtend(b, c, 0);
      assert bc[i + 1..] == b[i + 1..] + c;
      UnknownStaysUnknown(b, c, paste);
    }
  }

  /** A sequence that already has its final byte is not a longer one that is recognised. */
  lemma UnknownStaysUnknown(b: seq<byte>, c: seq<byte>, paste: bool)
    requires b != [] && b[0] == ESC && FirstFinal(b, 0) < |b|
    requires !(!paste && |b| >= 3 && b[1] == BRACKET && ArrowKey(b[2]) != RUNE_ERROR)
    requires !(|b| >= 6 && LongKey(b[..6], paste) != RUNE_ERROR)
    ensures var bc := b + c;
            && !(!paste && |bc| >= 3 && bc[1] == BRACKET && ArrowKey(bc[2]) != RUNE_ERROR)
            && !(|bc| >= 6 && LongKey(bc[..6], paste) != RUNE_ERROR)
  {
    hide LongKey;
    var bc := b + c;
    var i := FirstFinal(b, 0);
    assert forall k :: 0 <= k <= i ==> bc[k] == b[k];
    if |bc| >= 6 {
      if i < 5 {
        LongKeyShape(bc[..6], i, paste);
      } else {
        assert bc[..6] == b[..6];
      }
    }
  }

  // ---- Well-formed input without U+FFFD ----

  /** Runes other than U+FFFD, and perhaps the beginning of one more. */
  predicate Clean(b: seq<byte>)
    decreases |b|
  {
    || b == []
    || !FullRune(b)
    || (RuneLen(b) > 0 && RuneValue(b) != RUNE_ERROR && Clean(b[RuneLen(b)..]))
  }

  lemma {:induction false} ValidIsClean(b: seq<byte>)
    requires Valid(b) && RUNE_ERROR !in Decode(b)
    ensures Clean(b)
    decreases |b|
  {
    hide RuneLen, RuneValue, FullRune;
    if b != [] {
      assert Decode(b)[0] == RuneValue(b);
      assert Decode(b)[1..] == Decode(b[RuneLen(b)..]);
      ValidIsClean(b[RuneLen(b)..]);
    }
  }

  lemma {:induction false} CleanPrefix(a: seq<byte>, b: seq<byte>)
    requires Clean(a + b)
    ensures Clean(a)
    decreases |a|
  {
    if a != [] && FullRune(a) {
      FullRuneExtend(a, b);
      FullRuneWidth(a);
      var n := RuneLen(a + b);
      assert DecodeRune(a) == (RuneValue(a + b), n);
      assert n <= |a| && RuneLen(a) == n;
      assert (a + b)[n..] == a[n..] + b;
      CleanPrefix(a[n..], b);
    }
  }

  lemma FullRuneWidth(b: seq<byte>)
    requires FullRune(b)
    ensures DecodeRune(b) == (RUNE_ERROR, 1) || DecodeRune(b) == (RuneValue(b), RuneLen(b))
  {
  }

  lemma PartialHasNoAscii(b: seq<byte>)
    requires b != [] && !FullRune(b)
    ensures forall k :: 0 <= k < |b| ==> b[k] >= 0x80
  {
  }

  /** Behind an ASCII byte a clean input is clean again. */
  lemma {:induction false} CleanAfter(b: seq<byte>, i: nat)
    requires Clean(b) && i < |b| && b[i] < 0x80
    ensures Clean(b[i + 1..])
    decreases |b|
  {
    if !FullRune(b) {
      PartialHasNoAscii(b);
    } else {
      var n := RuneLen(b);
      if i >= n {
        CleanAfter(b[n..], i - n);
        assert b[n..][i - n + 1..] == b[i + 1..];
      }
    }
  }

  /** On clean input the decoder asks for more only by leaving the input alone, and it stays clean. */
  lemma CleanKey(b: seq<byte>, paste: bool)
    requires Clean(b)
    ensures BytesToKey(b, paste).0 == RUNE_ERROR ==> BytesToKey(b, paste).1 == b
    ensures Clean(BytesToKey(b, paste).1)
  {
    hide RuneLen, RuneValue, FullRune, FirstFinal;
    if b != [] {
      if !paste && ControlKey(b[0]) != RUNE_ERROR {
        CleanAfter(b, 0);
      } else if b[0] != ESC {
      } else if !paste && |b| >= 3 && b[1] == BRACKET && ArrowKey(b[2]) != RUNE_ERROR {
        CleanAfter(b, 2);
      } else if |b| >= 6 && LongKey(b[..6], paste) != RUNE_ERROR {
        assert b[5] == b[..6][5];
        CleanAfter(b, 5);
      } else if FirstFinal(b, 0) < |b| {
        CleanAfter(b, FirstFinal(b, 0));
      }
    }
  }

  /** On any input: asking for more drops bytes exactly when a complete rune at the front decodes to U+FFFD. */
  lemma DropsExactly(b: seq<byte>, paste: bool)
    ensures BytesToKey(b, paste).0 == RUNE_ERROR && BytesToKey(b, paste).1 != b <==>
            b != [] && FullRune(b) && DecodeRune(b).0 == RUNE_ERROR
  {
  }

  /** What is dropped is that rune. */
  lemma DropsOneRune(b: seq<byte>, paste: bool)
    requires BytesToKey(b, paste).0 == RUNE_ERROR && BytesToKey(b, paste).1 != b
    ensures BytesToKey(b, paste).1 == b[DecodeRune(b).1..]
  {
  }

  /** What the decoder is waiting for: the rest of a rune, or the final byte of an escape sequence. */
  lemma WaitingShape(b: seq<byte>, paste: bool)
    requires Clean(b) && BytesToKey(b, paste).0 == RUNE_ERROR && |b| > 3
    ensures b[0] == ESC && forall i :: 0 <= i < |b| ==> !IsFinal(b[i])
  {
    hide RuneLen, RuneValue, FullRune, LongKey, ArrowKey, ControlKey;
    CleanKey(b, paste);
    if !FullRune(b) {
      PartialIsShort(b);
    }
  }

  /** The brackets of a paste are recognised only where they make sense: its end inside one, its start outside. */
  lemma BracketMode(b: seq<byte>, paste: bool)
    ensures BytesToKey(b, paste).0 == KEY_PASTE_START ==> !paste
    ensures BytesToKey(b, paste).0 == KEY_PASTE_END ==> paste
  {
    if b != [] && b[0] != ESC && FullRune(b) && RuneLen(b) > 0 {
      RuneValueIsScalar(b);
    }
  }

  /** The decoder never reports the escape key itself, which is why no line can hold it. */
  lemma KeyIsNotEscape(b: seq<byte>, paste: bool)
    ensures BytesToKey(b, paste).0 != ESC
  {
    if b != [] && b[0] != ESC && FullRune(b) && RuneLen(b) > 0 {
      RuneValueIsScalar(b);
    }
  }
}
