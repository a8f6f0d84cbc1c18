/** From the keyboard to the caller: the bytes a terminal sends for keys decode to them, and typed text is returned. */
module Typing {
  import opened Options
  import opened Utf8
  import opened Screen
  import opened LineEditor
  import opened KeyDecoder
  import opened LineReader

  // ---- What a terminal sends ----

  /** The keys that arrive as escape sequences, outside paste mode. */
  predicate IsSpecial(key: Rune) {
    key in {KEY_UP, KEY_DOWN, KEY_LEFT, KEY_RIGHT, KEY_HOME, KEY_END, KEY_ALT_LEFT, KEY_ALT_RIGHT, KEY_PASTE_START}
  }

  /** Cursor keys of ECMA-48 terminals, the word keys as xterm sends them, and the start of a bracketed paste. */
  function Sequence(key: Rune): seq<byte>
    requires IsSpecial(key)
  {
    if key == KEY_ALT_LEFT then [0x1B, 0x5B, 0x31, 0x3B, 0x33, 0x44]
    else if key == KEY_ALT_RIGHT then [0x1B, 0x5B, 0x31, 0x3B, 0x33, 0x43]
    else if key == KEY_PASTE_START then [0x1B, 0x5B, 0x32, 0x30, 0x30, 0x7E]
    else
      [0x1B, 0x5B,
       if key == KEY_UP then 0x41 else if key == KEY_DOWN then 0x42 else if key == KEY_RIGHT then 0x43
       else if key == KEY_LEFT then 0x44 else if key == KEY_HOME then 0x48 else 0x46]
  }

  /** The sequence of a special key is decoded to that key, whatever follows it. */
  lemma SequenceDecodes(key: Rune, rest: seq<byte>)
    requires IsSpecial(key)
    ensures BytesToKey(Sequence(key) + rest, false) == (key, rest)
  {
    var s := Sequence(key);
    assert (s + rest)[|s|..] == rest;
    assert BytesToKey(s, false) == (key, []) by {
      if |s| == 6 {
        assert s[..6] == s;
      }
    }
    KeyPrefixStable(s, rest, false);
    assert [] + rest == rest;
  }

  /** In a paste the closing bracket ends it, whatever follows. */
  lemma PasteEndDecodes(rest: seq<byte>)
    ensures BytesToKey(PASTE_END + rest, true) == (KEY_PASTE_END, rest)
  {
    assert PASTE_END[..6] == PASTE_END;
    assert BytesToKey(PASTE_END, true) == (KEY_PASTE_END, []);
    KeyPrefixStable(PASTE_END, rest, true);
    assert [] + rest == rest;
  }

  /** A rune that is no control key is decoded to itself, whatever follows it, in both paste modes. */
  lemma RuneDecodes(r: Rune, rest: seq<byte>, paste: bool)
    requires IsScalar(r) && r != ESC
    requires paste || r >= 0x80 || ControlKey(r) == RUNE_ERROR
    ensures BytesToKey(EncodeRune(r) + rest, paste) == (r, rest)
  {
    hide RuneLen, RuneValue;
    var e := EncodeRune(r);
    EncodeRuneDecodes(r);
    RuneLenExtend(e, rest);
    assert (e + rest)[0] == e[0] && (e + rest)[|e|..] == rest;
    assert r < 0x80 ==> e[0] == r;
    assert r >= 0x80 ==> e[0] >= 0xC0;
    RuneIsFull(e + rest);
  }

  /** What the control bytes are outside a paste: the keys of Emacs and of ASCII terminals. */
  function ControlBytes(): map<byte, Rune> {
    map[0x01 := KEY_HOME, 0x05 := KEY_END, 0x08 := KEY_BACKSPACE, 0x0B := KEY_DELETE_LINE, 0x0C := KEY_CLEAR_SCREEN,
        0x0E := KEY_DOWN, 0x10 := KEY_UP, 0x17 := KEY_DELETE_WORD,
        0x03 := KEY_CTRL_C, 0x04 := KEY_CTRL_D, 0x0D := KEY_ENTER, 0x15 := KEY_CTRL_U, 0x7F := KEY_BACKSPACE]
  }

  /** Each control byte is decoded to its key, whatever follows; in a paste every byte but escape stands for itself. */
  lemma ControlDecodes(c: byte, rest: seq<byte>)
    ensures c in ControlBytes() ==> BytesToKey([c] + rest, false) == (ControlBytes()[c], rest)
    ensures c < 0x80 && c != ESC && c !in ControlBytes() ==> BytesToKey([c] + rest, false) == (c, rest)
    ensures c < 0x80 && c != ESC ==> BytesToKey([c] + rest, true) == (c, rest)
  {
    assert ([c] + rest)[1..] == rest;
  }

  /** An escape sequence nobody knows is one unknown key, up to its first letter or tilde. */
  lemma UnknownDecodes(middle: seq<byte>, final: byte, rest: seq<byte>, paste: bool)
    requires forall i :: 0 <= i < |middle| ==> !IsFinal(middle[i])
    requires 'a' as int <= final <= 'z' as int || 'A' as int <= final <= 'Z' as int || final == '~' as int
    requires forall key :: IsSpecial(key) ==> Sequence(key) != [ESC] + middle + [final]
    requires PASTE_END != [ESC] + middle + [final]
    ensures BytesToKey([ESC] + middle + [final] + rest, paste) == (KEY_UNKNOWN, rest)
  {
    var s := [ESC] + middle + [final];
    FirstFinalAt(s, 0, |s| - 1);
    assert BytesToKey(s, paste) == (KEY_UNKNOWN, []) by {
      KnownIsSequence(s, paste);
    }
    KeyPrefixStable(s, rest, paste);
    assert [] + rest == rest;
  }

  lemma {:induction false} FirstFinalAt(b: seq<byte>, i: nat, j: nat)
    requires i <= j < |b| && IsFinal(b[j]) && forall k :: i <= k < j ==> !IsFinal(b[k])
    ensures FirstFinal(b, i) == j
    decreases j - i
  {
    if i < j {
      FirstFinalAt(b, i + 1, j);
    }
  }

  /** A sequence up to its first final byte is unknown, or one of those listed. */
  lemma KnownIsSequence(s: seq<byte>, paste: bool)
    requires |s| >= 2 && s[0] == ESC && IsFinal(s[|s| - 1]) && forall k :: 0 <= k < |s| - 1 ==> !IsFinal(s[k])
    ensures BytesToKey(s, paste) == (KEY_UNKNOWN, []) || s == PASTE_END || exists key :: IsSpecial(key) && Sequence(key) == s
  {
    FirstFinalAt(s, 0, |s| - 1);
    if !paste && |s| >= 3 && s[1] == BRACKET && ArrowKey(s[2]) != RUNE_ERROR {
      var key := ArrowKey(s[2]);
      assert s == [0x1B, 0x5B, s[2]];
      assert IsSpecial(key) && Sequence(key) == s;
    } else if |s| >= 6 && LongKey(s[..6], paste) != RUNE_ERROR {
      var key := LongKey(s[..6], paste);
      assert s[5] == s[..6][5];
      assert s == s[..6];
      if !paste {
        assert IsSpecial(key) && Sequence(key) == s;
      }
    }
  }

  /** Ctrl-D on an empty line outside a paste is the end of input; on any other line it is a key. */
  lemma CtrlDEnds(t: Term, rest: seq<byte>, input: seq<seq<byte>>)
    requires t.InWidth() && t.histIndex >= -1 && !t.paste && |rest| < IN_BUF
    ensures t.Line() == [] ==> ReadLine(t, [0x04] + rest, input).outcome == EndOfInput
    ensures t.Line() != [] ==> OneKey(t, KEY_CTRL_D, false) == (HandleKey(t, KEY_CTRL_D).0, false, NeedInput)
  {
    hide ShowPrompt, BytesToKey, HandleKey;
    ControlDecodes(0x04, rest);
    HandleKeyEnds(t, KEY_CTRL_D);
    assert ShowPrompt(t).Line() == t.Line();
  }

  lemma RuneIsFull(s: seq<byte>)
    requires RuneLen(s) > 0
    ensures FullRune(s)
  {
  }

  // ---- A typed line ----

  /** A rune a user types into a line: not a control character, not backspace, not U+FFFD. */
  predicate IsPlain(r: Rune) {
    IsScalar(r) && r >= SPACE && r != KEY_BACKSPACE && r != RUNE_ERROR
  }

  predicate AllPlain(rs: seq<Rune>) {
    forall i :: 0 <= i < |rs| ==> IsPlain(rs[i])
  }

  ghost predicate NeverCompletes(t: Term) {
    forall line, pos, key :: t.complete(line, pos, key) == None
  }

  /** A plain rune is inserted at the cursor, unless the line has 4096 runes. */
  lemma PlainKey(t: Term, r: Rune)
    requires t.InWidth() && t.histIndex >= -1 && !t.paste && NeverCompletes(t) && IsPlain(r)
    ensures var (u, pasted, stop) := OneKey(t, r, false);
            && u.before == (if |t.Line()| == 4096 then t.before else t.before + [r])
            && u.after == t.after && SameContext(t, u)
            && !pasted && stop == NeedInput
  {
    hide MoveCursorToPos, WriteLine, Encode;
  }

  /** Outside a paste a key that is neither bound nor printable changes nothing, not even the screen. */
  lemma UnboundKey(t: Term, key: Rune)
    requires t.InWidth() && t.histIndex >= -1 && !t.paste && NeverCompletes(t)
    requires key < SPACE || 0xD800 <= key <= 0xDBFF
    requires forall c :: c in ControlBytes() ==> ControlBytes()[c] != key
    requires !IsSpecial(key) && key != KEY_PASTE_END
    ensures OneKey(t, key, false) == (t, false, NeedInput)
  {
    hide Encode;
    assert ControlBytes()[0x0B] == KEY_DELETE_LINE && ControlBytes()[0x0C] == KEY_CLEAR_SCREEN;
    assert ControlBytes()[0x17] == KEY_DELETE_WORD && ControlBytes()[0x08] == KEY_BACKSPACE;
    assert ControlBytes()[0x03] == KEY_CTRL_C && ControlBytes()[0x04] == KEY_CTRL_D;
    assert ControlBytes()[0x0D] == KEY_ENTER && ControlBytes()[0x15] == KEY_CTRL_U;
  }

  lemma EnterKey(t: Term)
    requires t.InWidth() && t.histIndex >= -1 && !t.paste
    ensures var (u, pasted, stop) := OneKey(t, KEY_ENTER, false);
            !u.paste && !pasted && stop == Finished(Encode(t.Line()))
  {
    hide EndLine, Encode;
  }

  const ENTER: seq<byte> := [0x0D]

  lemma EnterDecodes()
    ensures BytesToKey(ENTER, false) == (KEY_ENTER, [])
    ensures BytesToKey([], false) == (RUNE_ERROR, [])
    ensures ENTER + [] == ENTER
  {
  }

  /** As much of what is typed as the line has room for. */
  function Fitting(rs: seq<Rune>, room: nat): seq<Rune> {
    if |rs| <= room then rs else rs[..room]
  }

  /** Typing plain runes at the end of the line, and then Enter. */
  lemma {:induction false} PumpTypes(t: Term, rs: seq<Rune>)
    requires t.InWidth() && t.histIndex >= -1 && !t.paste && NeverCompletes(t) && t.after == []
    requires AllPlain(rs) && |t.before| <= 4096
    ensures Pump(t, Encode(rs) + ENTER, false).events == [Line(Encode(t.before + Fitting(rs, 4096 - |t.before|)), false)]
    decreases |rs|
  {
    hide BytesToKey, OneKey, ShowPrompt, EncodeRune, Record;
    if rs == [] {
      EnterDecodes();
      EnterKey(t);
      assert Encode(rs) + ENTER == ENTER;
      assert t.before + rs == t.before == t.Line();
      var (u, pasted, stop) := OneKey(t, KEY_ENTER, false);
      RecordKeepsMode(u, stop.line);
      PumpNothing(Line(stop.line, pasted), Record(u, stop.line));
    } else {
      var r, rest := rs[0], Encode(rs[1..]) + ENTER;
      assert AllPlain(rs[1..]) && IsPlain(r);
      assert Encode(rs) + ENTER == EncodeRune(r) + rest;
      RuneDecodes(r, rest, false);
      assert t.Line() == t.before;
      PlainKey(t, r);
      var (u, _, _) := OneKey(t, r, false);
      PumpTypes(u, rs[1..]);
      FittingNext(t.before, rs);
    }
  }

  lemma FittingNext(before: seq<Rune>, rs: seq<Rune>)
    requires rs != [] && |before| <= 4096
    ensures var u := if |before| == 4096 then before else before + [rs[0]];
            before + Fitting(rs, 4096 - |before|) == u + Fitting(rs[1..], 4096 - |u|)
  {
  }

  lemma RecordKeepsMode(t: Term, line: seq<byte>)
    requires t.InWidth() && t.histIndex >= -1
    ensures var r := Record(t, line); r.paste == t.paste && r.InWidth() && r.histIndex >= -1
  {
  }

  lemma PumpNothing(event: Outcome, t: Term)
    requires t.InWidth() && t.histIndex >= -1 && !t.paste
    ensures PumpNext(event, t, []).events == [event]
  {
    EnterDecodes();
    assert Pump(ShowPrompt(t), [], t.paste).events == [];
  }

  // ---- ... in any reads ----

  /** Text without control characters contains no escape byte. */
  lemma {:induction false} PlainHasNoEscape(rs: seq<Rune>)
    requires AllPlain(rs)
    ensures ESC !in Encode(rs)
  {
    if rs != [] {
      assert IsPlain(rs[0]);
      assert ESC !in EncodeRune(rs[0]);
      assert AllPlain(rs[1..]);
      PlainHasNoEscape(rs[1..]);
    }
  }

  lemma {:induction false} PlainIsClean(rs: seq<Rune>)
    requires AllPlain(rs)
    ensures Clean(Encode(rs) + ENTER)
  {
    hide RuneLen, RuneValue, EncodeRune, FullRune, Clean;
    var b := Encode(rs) + ENTER;
    DecodeEncode(rs);
    DecodeEncode([KEY_ENTER]);
    SplitValid(Encode(rs), ENTER);
    assert Encode([KEY_ENTER]) == ENTER by { EnterEncodes(); }
    assert Decode(b) == Scalars(rs) + Scalars([KEY_ENTER]);
    forall i | 0 <= i < |Decode(b)|
      ensures Decode(b)[i] != RUNE_ERROR
    {
      if i < |rs| {
        assert IsPlain(rs[i]);
      }
    }
    ValidIsClean(b);
  }

  lemma EnterEncodes()
    ensures Encode([KEY_ENTER]) == ENTER
  {
    assert [KEY_ENTER][1..] == [];
  }

  /**
   What is typed is what is read: plain runes and Enter, typed at an empty line outside a paste and arriving in any
   reads, are returned as exactly that text, cut after 4096 runes, once, and not reported as pasted.
   */
  lemma TypedLineIsRead(t: Term, rs: seq<Rune>, input: seq<seq<byte>>)
    requires t.InWidth() && t.histIndex >= -1 && !t.paste && t.Line() == [] && NeverCompletes(t)
    requires AllPlain(rs)
    requires Flat(input) == Encode(rs) + [0x0D]
    ensures RunSession(t, [], input).events == [Line(Encode(if |rs| <= 4096 then rs else rs[..4096]), false)]
  {
    hide RunSession, Pump, ShowPrompt, ShortEscapes, Clean, Encode, Flat;
    var b, u := Encode(rs) + ENTER, ShowPrompt(t);
    assert [] + Flat(input) == b;
    PlainIsClean(rs);
    PlainHasNoEscape(rs);
    NoEscapesAreShort(b);
    SessionIsPump(t, [], input);
    assert t.before == [] && t.after == [];
    PumpTypes(u, rs);
    assert u.before + Fitting(rs, 4096) == Fitting(rs, 4096);
  }

  // ---- A pasted line ----

  /** Pasting runes other than escape, Enter and U+FFFD at the end of the line, and Enter within the paste. */
  lemma {:induction false} PumpPastes(t: Term, rs: seq<Rune>)
    requires t.InWidth() && t.histIndex >= -1 && t.paste && t.after == []
    requires forall i :: 0 <= i < |rs| ==> IsScalar(rs[i]) && rs[i] != ESC && rs[i] != KEY_ENTER && rs[i] != RUNE_ERROR
    ensures Pump(t, Encode(rs) + ENTER, true).events == [Line(Encode(t.before + rs), true)]
    decreases |rs|
  {
    hide BytesToKey, OneKey, ShowPrompt, EncodeRune, Record;
    if rs == [] {
      PastedEnter(t);
      assert Encode(rs) + ENTER == ENTER;
      assert t.before + rs == t.before == t.Line();
      var (u, pasted, stop) := OneKey(t, KEY_ENTER, true);
      RecordKeepsMode(u, stop.line);
      PumpNothingPasted(Line(stop.line, pasted), Record(u, stop.line));
    } else {
      var r, rest := rs[0], Encode(rs[1..]) + ENTER;
      assert Encode(rs) + ENTER == EncodeRune(r) + rest;
      RuneDecodes(r, rest, true);
      PastedKey(t, r);
      var (u, _, _) := OneKey(t, r, true);
      PumpPastes(u, rs[1..]);
      assert t.before + rs == u.before + rs[1..];
    }
  }

  /** In a paste every rune is inserted, control characters too, and however long the line is. */
  lemma PastedKey(t: Term, r: Rune)
    requires t.InWidth() && t.histIndex >= -1 && t.paste && IsScalar(r) && r != KEY_ENTER
    ensures var (u, pasted, stop) := OneKey(t, r, true);
            u.before == t.before + [r] && u.after == t.after && SameContext(t, u) && pasted && stop == NeedInput
  {
    hide MoveCursorToPos, WriteLine, Encode;
  }

  lemma PastedEnter(t: Term)
    requires t.InWidth() && t.histIndex >= -1 && t.paste
    ensures var (u, pasted, stop) := OneKey(t, KEY_ENTER, true);
            u.paste && pasted && stop == Finished(Encode(t.Line()))
    ensures BytesToKey(ENTER, true) == (KEY_ENTER, []) && BytesToKey([], true) == (RUNE_ERROR, [])
  {
    hide EndLine, Encode;
  }

  lemma PumpNothingPasted(event: Outcome, t: Term)
    requires t.InWidth() && t.histIndex >= -1 && t.paste
    ensures PumpNext(event, t, []).events == [event]
  {
    PastedEnter(t);
    assert Pump(ShowPrompt(t), [], t.paste).events == [];
  }

  lemma {:induction false} AsciiEncodes(rs: seq<Rune>)
    requires forall i :: 0 <= i < |rs| ==> 0 <= rs[i] < 0x80
    ensures Encode(rs) == rs
  {
    if rs != [] {
      AsciiEncodes(rs[1..]);
    }
  }

  lemma {:induction false} TextHasNoEscape(rs: seq<Rune>)
    requires forall i :: 0 <= i < |rs| ==> rs[i] != ESC
    ensures ESC !in Encode(rs)
  {
    if rs != [] {
      assert ESC !in EncodeRune(rs[0]);
      TextHasNoEscape(rs[1..]);
    }
  }

  lemma TextIsClean(rs: seq<Rune>)
    requires forall i :: 0 <= i < |rs| ==> IsScalar(rs[i]) && rs[i] != RUNE_ERROR
    ensures Clean(Encode(rs))
  {
    hide Encode, Decode, Valid, Clean;
    DecodeEncode(rs);
    assert RUNE_ERROR !in Scalars(rs);
    ValidIsClean(Encode(rs));
  }

  /** The bytes of a pasted line and the Enter pasted with it. */
  lemma PasteBytes(rs: seq<Rune>)
    requires forall i :: 0 <= i < |rs| ==> IsScalar(rs[i]) && rs[i] != ESC && rs[i] != KEY_ENTER && rs[i] != RUNE_ERROR
    ensures var b := PASTE_START + (Encode(rs) + ENTER); Clean(b) && ShortEscapes(b)
  {
    hide Encode, Clean;
    var start: seq<Rune> := [0x1B, 0x5B, 0x32, 0x30, 0x30, 0x7E];
    AsciiEncodes(start);
    AsciiEncodes([KEY_ENTER]);
    EncodeAppend(rs, [KEY_ENTER]);
    EncodeAppend(start, rs + [KEY_ENTER]);
    TextIsClean(start + (rs + [KEY_ENTER]));
    TextHasNoEscape(rs + [KEY_ENTER]);
    OneEscapeIsShort(Encode(rs) + ENTER);
  }

  lemma OneEscapeIsShort(rest: seq<byte>)
    requires ESC !in rest
    ensures ShortEscapes(PASTE_START + rest)
  {
    var b := PASTE_START + rest;
    assert forall k :: 6 <= k < |b| ==> b[k] == rest[k - 6];
    forall i: nat | i + IN_BUF <= |b| && b[i] == ESC
      ensures HasFinal(b, i, i + IN_BUF)
    {
      assert IsFinal(b[5]);
    }
  }

  /**
   What is pasted is what is read: a bracketed paste of any length that ends in Enter, control characters included,
   arriving at an empty line in any reads, is returned as exactly that text, once, and reported as pasted.
   */
  lemma PastedLineIsRead(t: Term, rs: seq<Rune>, input: seq<seq<byte>>)
    requires t.InWidth() && t.histIndex >= -1 && !t.paste && t.Line() == []
    requires forall i :: 0 <= i < |rs| ==> IsScalar(rs[i]) && rs[i] != ESC && rs[i] != KEY_ENTER && rs[i] != RUNE_ERROR
    requires Flat(input) == PASTE_START + (Encode(rs) + [0x0D])
    ensures RunSession(t, [], input).events == [Line(Encode(rs), true)]
  {
    hide RunSession, ShowPrompt, ShortEscapes, Clean, Encode, Flat, HandleKey, BytesToKey;
    var u, rest := ShowPrompt(t), Encode(rs) + ENTER;
    assert [] + Flat(input) == PASTE_START + rest;
    PasteBytes(rs);
    SessionIsPump(t, [], input);
    assert t.before == [] && t.after == [];
    assert u.Line() == [];
    SequenceDecodes(KEY_PASTE_START, rest);
    PumpPastes(u.(paste := true), rs);
    assert u.before + rs == rs;
  }

  lemma NoEscapesAreShort(b: seq<byte>)
    requires ESC !in b
    ensures ShortEscapes(b)
  {
  }
}
