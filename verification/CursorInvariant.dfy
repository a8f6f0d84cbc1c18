/** The cursor arithmetic of the line editor stays exact across editing, raw output and resizing. */
module CursorInvariant {
  import opened Options
  import opened Utf8
  import opened Wrapping
  import opened Screen
  import opened LineEditor

  predicate NotEscape(r: Rune) {
    r != ESC
  }

  ghost predicate Only(ok: Rune -> bool, rs: seq<Rune>) {
    forall i :: 0 <= i < |rs| ==> ok(rs[i])
  }

  /** Every text the editor can put on the screen consists of `ok` runes. */
  ghost predicate Contents(ok: Rune -> bool, t: Term) {
    && Only(ok, t.prompt) && Only(ok, t.before) && Only(ok, t.after)
    && (forall i :: 0 <= i < |t.history| ==> Only(ok, Decode(t.history[i])))
    && Only(ok, Decode(t.histPending))
    && (forall line, pos, key :: t.complete(line, pos, key).Some? ==>
          Only(ok, Decode(t.complete(line, pos, key).value.0)))
  }

  /** The cursor is on cell `p` of what is being drawn. */
  predicate At(t: Term, p: nat) {
    t.InWidth() && t.x == Col(p, t.width) && t.y == Row(p, t.width)
  }

  /** Length of prompt and line up to the cursor, and in all. */
  function CursorCell(t: Term): nat {
    |t.prompt| + |t.before|
  }

  function EndCell(t: Term): nat {
    |t.prompt| + |t.before| + |t.after|
  }

  /** With echo on and the prompt printed: where the cursor is, and that maxLine covers the drawn text. */
  ghost predicate CursorOk(t: Term) {
    && t.echo && t.histIndex >= -1
    && At(t, CursorCell(t))
    && Row(EndCell(t), t.width) <= t.maxLine
  }

  /** No prompt yet and nothing typed: the state a finished line leaves. */
  ghost predicate Fresh(t: Term) {
    && t.echo && t.histIndex >= -1
    && t.width > 0
    && t.x == 0 && t.y == 0 && t.before == [] && t.after == []
  }

  // ---- Output primitives ----

  lemma {:induction false} VisualIsLength(rs: seq<Rune>)
    requires Only(NotEscape, rs)
    ensures VisualLength(rs) == |rs|
    decreases |rs|
  {
    if rs != [] {
      assert NotEscape(rs[0]);
      assert Only(NotEscape, rs[1..]);
      VisualIsLength(rs[1..]);
    }
  }

  lemma MoveAt(t: Term, pos: nat)
    requires t.echo && t.InWidth() && Only(NotEscape, t.prompt)
    ensures At(MoveCursorToPos(t, pos), |t.prompt| + pos)
    ensures MoveCursorToPos(t, pos).maxLine == t.maxLine
  {
    VisualIsLength(t.prompt);
  }

  lemma AdvanceAt(t: Term, p: nat, n: nat)
    requires At(t, p)
    ensures var r := AdvanceCursor(t, n);
            && At(r, p + n)
            && r.maxLine == if Row(p + n, t.width) > t.maxLine then Row(p + n, t.width) else t.maxLine
  {
    RowColAdvance(p, n, t.width);
  }

  lemma {:induction false} WriteLineAt(t: Term, p: nat, line: seq<Rune>)
    requires At(t, p) && Only(NotEscape, line)
    ensures var r := WriteLine(t, line);
            && At(r, p + |line|)
            && t.maxLine <= r.maxLine
            && (line != [] || Row(p, t.width) <= t.maxLine ==> Row(p + |line|, t.width) <= r.maxLine)
    decreases |line|
  {
    hide Row, Col, MoveSeq, Hop, Itoa, VisualFrom;
    if line != [] {
      var todo := if |line| > t.width - t.x then t.width - t.x else |line|;
      var q := Queue(t, line[..todo]);
      VisualIsLength(line[..todo]);
      AdvanceAt(q, p, todo);
      WriteLineAt(AdvanceCursor(q, todo), p + todo, line[todo..]);
    }
  }

  lemma {:induction false} WriteSpacesAt(t: Term, p: nat, n: nat)
    requires At(t, p)
    ensures var r := WriteSpaces(t, n);
            && At(r, p + n)
            && t.maxLine <= r.maxLine
    decreases n
  {
    if n > 0 {
      WriteLineAt(t, p, [SPACE]);
      WriteSpacesAt(WriteLine(t, [SPACE]), p + 1, n - 1);
    }
  }

  lemma {:induction false} BlankOutAt(t: Term, p: nat, n: nat)
    requires At(t, p)
    ensures var r := BlankOut(t, n);
            && At(r, p + n)
            && t.maxLine <= r.maxLine
    decreases n
  {
    if n > 0 {
      var u := Queue(t, [SPACE]);
      AdvanceAt(u, p, 1);
      BlankOutAt(AdvanceCursor(u, 1), p + 1, n - 1);
    }
  }

  // ---- Edits ----

  lemma SetLineCursor(t: Term, line: seq<Rune>, pos: nat)
    requires t.echo && t.histIndex >= -1 && t.InWidth() && Only(NotEscape, t.prompt)
    requires Row(|t.prompt|, t.width) <= t.maxLine
    requires Only(NotEscape, line) && pos <= |line|
    ensures CursorOk(SetLine(t, line, pos))
  {
    hide Row, Col, MoveSeq, Hop, Itoa, VisualFrom, WriteLine, WriteSpaces, AdvanceCursor, MoveCursorToPos;
    var u := MoveCursorToPos(t, 0);
    MoveAt(t, 0);
    WriteLineAt(u, |t.prompt|, line);
    var v := WriteLine(u, line);
    var k := Minus(|t.Line()|, |line|);
    WriteSpacesAt(v, |t.prompt| + |line|, k);
    MoveAt(WriteSpaces(v, k), pos);
  }

  lemma EraseCursor(t: Term, count: nat)
    requires t.echo && t.histIndex >= -1 && t.InWidth()
    requires Only(NotEscape, t.prompt) && Only(NotEscape, t.after)
    requires CursorOk(t) || (count > 0 && Row(EndCell(t), t.width) <= t.maxLine)
    ensures CursorOk(Erase(t, count))
  {
    hide Row, Col, MoveSeq, Hop, Itoa, VisualFrom, WriteLine, WriteSpaces, AdvanceCursor, MoveCursorToPos;
    if count > 0 {
      var n := if t.Pos() < count then t.Pos() else count;
      var pos := t.Pos() - n;
      var s := t.(before := t.before[..pos]);
      MoveAt(s, pos);
      var u := MoveCursorToPos(s, pos);
      WriteLineAt(u, |t.prompt| + pos, u.after);
      var v := Queue(WriteLine(u, u.after), Spaces(n));
      AdvanceAt(v, EndCell(u), n);
      MoveAt(AdvanceCursor(v, n), pos);
      RowMonotone(EndCell(u), EndCell(t), t.width);
    }
  }

  lemma AddKeyCursor(t: Term, key: Rune)
    requires CursorOk(t) && Only(NotEscape, t.prompt) && Only(NotEscape, t.after) && key != ESC
    ensures CursorOk(AddKey(t, key))
  {
    hide Row, Col, MoveSeq, Hop, Itoa, VisualFrom, WriteLine, BlankOut, AdvanceCursor, MoveCursorToPos;
    WriteLineAt(t, CursorCell(t), [key] + t.after);
    MoveAt(WriteLine(t, [key] + t.after).(before := t.before + [key]), t.Pos() + 1);
  }

  lemma MoveToCursor(t: Term, pos: nat)
    requires CursorOk(t) && Only(NotEscape, t.prompt) && pos <= |t.Line()|
    ensures CursorOk(MoveTo(t, pos))
  {
    MoveAt(t.(before := t.Line()[..pos], after := t.Line()[pos..]), pos);
  }

  lemma DeleteLineCursor(t: Term)
    requires CursorOk(t) && Only(NotEscape, t.prompt)
    ensures CursorOk(MoveCursorToPos(BlankOut(t, |t.after|).(after := []), t.Pos()))
  {
    hide Row, Col, MoveSeq, Hop, Itoa, VisualFrom, WriteLine, BlankOut, AdvanceCursor, MoveCursorToPos;
    BlankOutAt(t, CursorCell(t), |t.after|);
    MoveAt(BlankOut(t, |t.after|).(after := []), t.Pos());
    RowMonotone(CursorCell(t), EndCell(t), t.width);
  }

  lemma ClearScreenCursor(t: Term)
    requires t.echo && t.histIndex >= -1 && t.InWidth()
    requires Only(NotEscape, t.prompt) && Only(NotEscape, t.before) && Only(NotEscape, t.after)
    ensures CursorOk(ClearScreen(t))
  {
    var u := Queue(Queue(t, CLEAR_AND_HOME), t.prompt).(x := 0, y := 0);
    VisualIsLength(t.prompt);
    AdvanceAt(u, 0, |t.prompt|);
    SetLineCursor(AdvanceCursor(u, |t.prompt|), t.Line(), t.Pos());
  }

  /**
   The invariant over every key, in both paste modes: with echo on and no escape character in prompt,
   history or completions, handleKey keeps the cursor on the cell of the line position, or ends the line.
   */
  lemma HandleKeyCursor(t: Term, key: Rune)
    requires CursorOk(t) && Contents(NotEscape, t)
    requires key != ESC
    ensures var (r, line) := HandleKey(t, key);
            if line.None? then CursorOk(r) else Fresh(r)
  {
    hide Row, Col, MoveSeq, Hop, Itoa, VisualFrom, Erase, MoveTo, AddKey, ClearScreen, TypeKey, BlankOut, HistoryUp, HistoryDown, MoveCursorToPos, WordLeft, WordRight, Decode, Encode;
    RowMonotone(|t.prompt|, EndCell(t), t.width);
    if t.paste && key != KEY_ENTER {
      AddKeyCursor(t, key);
    } else if key == KEY_BACKSPACE {
      EraseCursor(t, 1);
    } else if key == KEY_ALT_LEFT {
      MoveToCursor(t, t.Pos() - WordLeft(t.before));
    } else if key == KEY_ALT_RIGHT {
      MoveToCursor(t, t.Pos() + WordRight(t.after));
    } else if key == KEY_LEFT {
      if t.Pos() > 0 { MoveToCursor(t, t.Pos() - 1); }
    } else if key == KEY_RIGHT {
      if t.after != [] { MoveToCursor(t, t.Pos() + 1); }
    } else if key == KEY_HOME {
      MoveToCursor(t, 0);
    } else if key == KEY_END {
      MoveToCursor(t, |t.Line()|);
    } else if key == KEY_UP {
      HistoryUpCursor(t);
    } else if key == KEY_DOWN {
      HistoryDownCursor(t);
    } else if key == KEY_CTRL_C || key == KEY_ENTER {
    } else if key == KEY_DELETE_WORD {
      EraseCursor(t, WordLeft(t.before));
    } else if key == KEY_DELETE_LINE {
      DeleteLineCursor(t);
    } else if key == KEY_CTRL_D {
      if t.after != [] {
        EraseCursor(t.(before := t.before + [t.after[0]], after := t.after[1..]), 1);
      }
    } else if key == KEY_CTRL_U {
      EraseCursor(t, t.Pos());
    } else if key == KEY_CLEAR_SCREEN {
      ClearScreenCursor(t);
    } else {
      TypeKeyCursor(t, key);
    }
  }

  lemma HistoryUpCursor(t: Term)
    requires CursorOk(t) && Contents(NotEscape, t) && Row(|t.prompt|, t.width) <= t.maxLine
    ensures CursorOk(HistoryUp(t))
  {
    hide Row, Col, MoveSeq, Hop, Itoa, VisualFrom, SetLine, Decode, Encode;
    match NthPrevious(t.history, t.histIndex + 1)
    case None =>
    case Some(entry) =>
      var pending := if t.histIndex == -1 then Encode(t.Line()) else t.histPending;
      SetLineCursor(t.(histPending := pending, histIndex := t.histIndex + 1), Decode(entry), |Decode(entry)|);
  }

  lemma HistoryDownCursor(t: Term)
    requires CursorOk(t) && Contents(NotEscape, t) && Row(|t.prompt|, t.width) <= t.maxLine
    ensures CursorOk(HistoryDown(t))
  {
    hide Row, Col, MoveSeq, Hop, Itoa, VisualFrom, SetLine, Decode, Encode;
    if t.histIndex == 0 {
      SetLineCursor(t, Decode(t.histPending), |Decode(t.histPending)|);
    } else if t.histIndex > 0 {
      match NthPrevious(t.history, t.histIndex - 1)
      case None =>
      case Some(entry) => SetLineCursor(t.(histIndex := t.histIndex - 1), Decode(entry), |Decode(entry)|);
    }
  }

  lemma TypeKeyCursor(t: Term, key: Rune)
    requires CursorOk(t) && Contents(NotEscape, t) && Row(|t.prompt|, t.width) <= t.maxLine
    requires key != ESC
    ensures CursorOk(TypeKey(t, key))
  {
    hide Row, Col, MoveSeq, Hop, Itoa, VisualFrom, SetLine, AddKey, Decode, Encode;
    var prefix, suffix := Encode(t.before), Encode(t.after);
    match t.complete(prefix + suffix, |prefix|, key)
    case Some((newLine, newPos)) => SetLineCursor(t, Decode(newLine), |Decode(newLine[..newPos])|);
    case None =>
      if IsPrintable(key) && |t.Line()| != MAX_LINE_LENGTH {
        AddKeyCursor(t, key);
      }
  }

  // ---- Prompt, raw output and resizing ----

  lemma ShowPromptCursor(t: Term)
    requires Fresh(t) && Only(NotEscape, t.prompt)
    ensures CursorOk(ShowPrompt(t))
  {
    WriteLineAt(t, 0, t.prompt);
  }

  /** Write draws prompt and line again below its output, and leaves the cursor where the position is. */
  lemma WriteCursor(t: Term)
    requires CursorOk(t) && Contents(NotEscape, t)
    ensures CursorOk(AfterWrite(t))
  {
    if t.x != 0 || t.y != 0 {
      ShowLineCursor(HideLine(t).(out := [], x := 0, y := 0));
    }
  }

  /**
   A Write whose first step fails leaves the line hidden, and the next call of readLine prints the prompt alone:
   the cursor is then where the position is exactly if the position is 0.
   */
  lemma FailedWriteCursor(t: Term)
    requires CursorOk(t) && Contents(NotEscape, t)
    ensures CursorOk(ShowPrompt(HideLine(t))) <==> t.before == []
  {
    hide Row, Col, WriteLine;
    var u := HideLine(t);
    RowColZero(t.width);
    WriteLineAt(u, 0, t.prompt);
    if CursorOk(ShowPrompt(u)) {
      RowColInjective(|t.prompt|, CursorCell(t), t.width);
    }
  }

  lemma ShowLineCursor(t: Term)
    requires t.echo && t.histIndex >= -1 && t.width > 0 && t.x == 0 && t.y == 0
    requires Only(NotEscape, t.prompt) && Only(NotEscape, t.before) && Only(NotEscape, t.after)
    ensures CursorOk(ShowLine(t))
  {
    hide Row, Col, MoveSeq, Hop, Itoa, VisualFrom, WriteLine, AdvanceCursor, MoveCursorToPos;
    RowColZero(t.width);
    WriteLineAt(t, 0, t.prompt);
    var u := WriteLine(t, t.prompt);
    WriteLineAt(u, |t.prompt|, t.Line());
    MoveAt(WriteLine(u, t.Line()), t.Pos());
  }

  lemma RepaintCursor(t: Term, rows: nat)
    requires t.echo && t.histIndex >= -1 && t.width > 0
    requires Only(NotEscape, t.prompt) && Only(NotEscape, t.before) && Only(NotEscape, t.after)
    ensures CursorOk(Repaint(t, rows))
  {
    hide Row, Col, EraseRows, Redraw;
    RedrawCursor(EraseRows(t, rows));
  }

  lemma RedrawCursor(t: Term)
    requires t.echo && t.histIndex >= -1 && t.width > 0 && t.x == 0 && t.y == 0
    requires Only(NotEscape, t.prompt) && Only(NotEscape, t.before) && Only(NotEscape, t.after)
    ensures CursorOk(Redraw(t))
  {
    hide Row, Col, MoveSeq, Hop, Itoa, VisualFrom, WriteLine, AdvanceCursor, MoveCursorToPos;
    VisualIsLength(t.prompt);
    RowColZero(t.width);
    AdvanceAt(Queue(t, t.prompt), 0, |t.prompt|);
    var z := AdvanceCursor(Queue(t, t.prompt), |t.prompt|);
    WriteLineAt(z, |t.prompt|, t.Line());
    MoveAt(WriteLine(z, t.Line()), t.Pos());
  }

  /** SetSize re-establishes the invariant for the new width, whichever of its branches it takes. */
  lemma ResizeCursor(t: Term, width: nat)
    requires CursorOk(t) && Contents(NotEscape, t)
    ensures CursorOk(Resize(t, width))
  {
    if t.x == 0 && t.y == 0 {
      RowColInjective(CursorCell(t), 0, t.width);
    }
    var w := if width == 0 then 1 else width;
    var u := t.(width := w);
    if w != t.width && !(t.Line() == [] && t.x == 0 && t.y == 0) {
      if w < t.width {
        RepaintCursor(u.(x := if t.x >= w then w - 1 else t.x, y := t.y * 2), t.maxLine * 2);
      } else {
        RepaintCursor(u, t.maxLine);
      }
    }
  }

  // ---- What the editor can show stays within `ok` ----

  lemma OnlyEncoded(ok: Rune -> bool, rs: seq<Rune>)
    requires Only(ok, rs) && ok(RUNE_ERROR)
    ensures Only(ok, Decode(Encode(rs)))
  {
    DecodeEncode(rs);
  }

  lemma OnlyNothing(ok: Rune -> bool)
    ensures Only(ok, Decode([]))
  {
  }

  /** Whatever the editor holds after a key consists of runes it held before, the key, and U+FFFD. */
  lemma HandleKeyContents(ok: Rune -> bool, t: Term, key: Rune)
    requires t.InWidth() && t.histIndex >= -1
    requires ok(RUNE_ERROR) && Contents(ok, t)
    requires (if t.paste then key != KEY_ENTER else IsPrintable(key)) ==> ok(key)
    ensures var (r, line) := HandleKey(t, key);
            && Contents(ok, r) && r.histIndex >= -1
            && (line.Some? ==> Only(ok, Decode(line.value)))
  {
    hide Encode, Decode, Erase, MoveTo, AddKey, ClearScreen, TypeKey, BlankOut, HistoryUp, HistoryDown,
         MoveCursorToPos, WordLeft, WordRight;
    OnlyEncoded(ok, t.before + t.after);
    OnlyNothing(ok);
    if t.paste && key != KEY_ENTER {
      AddKeyContents(ok, t, key);
    } else if key == KEY_ALT_LEFT {
      MoveToContents(ok, t, t.Pos() - WordLeft(t.before));
    } else if key == KEY_ALT_RIGHT {
      MoveToContents(ok, t, t.Pos() + WordRight(t.after));
    } else if key == KEY_LEFT {
      if t.Pos() > 0 { MoveToContents(ok, t, t.Pos() - 1); }
    } else if key == KEY_RIGHT {
      if t.after != [] { MoveToContents(ok, t, t.Pos() + 1); }
    } else if key == KEY_HOME {
      MoveToContents(ok, t, 0);
    } else if key == KEY_END {
      MoveToContents(ok, t, |t.Line()|);
    } else if key == KEY_UP {
      HistoryUpContents(ok, t);
    } else if key == KEY_DOWN {
      HistoryDownContents(ok, t);
    } else if key == KEY_BACKSPACE || key == KEY_CTRL_U || key == KEY_DELETE_WORD {
      EraseContents(ok, t, if key == KEY_BACKSPACE then 1 else if key == KEY_CTRL_U then t.Pos() else WordLeft(t.before));
    } else if key == KEY_CTRL_D {
      if t.after != [] {
        EraseContents(ok, t.(before := t.before + [t.after[0]], after := t.after[1..]), 1);
      }
    } else if key == KEY_CLEAR_SCREEN {
      ClearScreenContents(ok, t);
    } else if key != KEY_CTRL_C && key != KEY_ENTER && key != KEY_DELETE_LINE {
      TypeKeyContents(ok, t, key);
    }
  }

  lemma EraseContents(ok: Rune -> bool, t: Term, count: nat)
    requires t.InWidth() && Contents(ok, t)
    ensures Contents(ok, Erase(t, count))
  {
    hide Decode, WriteLine, MoveCursorToPos, AdvanceCursor, Spaces;
  }

  lemma MoveToContents(ok: Rune -> bool, t: Term, pos: nat)
    requires t.InWidth() && pos <= |t.Line()| && Contents(ok, t)
    ensures Contents(ok, MoveTo(t, pos))
  {
    hide Decode, MoveCursorToPos;
  }

  lemma AddKeyContents(ok: Rune -> bool, t: Term, key: Rune)
    requires t.InWidth() && Contents(ok, t) && ok(key)
    ensures Contents(ok, AddKey(t, key))
  {
    hide Decode, WriteLine, MoveCursorToPos;
  }

  lemma ClearScreenContents(ok: Rune -> bool, t: Term)
    requires t.InWidth() && Contents(ok, t)
    ensures Contents(ok, ClearScreen(t))
  {
    hide Decode, WriteLine, WriteSpaces, MoveCursorToPos, AdvanceCursor;
    assert t.Line()[..t.Pos()] == t.before && t.Line()[t.Pos()..] == t.after;
  }

  lemma HistoryUpContents(ok: Rune -> bool, t: Term)
    requires t.InWidth() && t.histIndex >= -1
    requires ok(RUNE_ERROR) && Contents(ok, t)
    ensures Contents(ok, HistoryUp(t)) && HistoryUp(t).histIndex >= -1
  {
    hide Encode, Decode, WriteLine, WriteSpaces, MoveCursorToPos;
    OnlyEncoded(ok, t.Line());
  }

  lemma HistoryDownContents(ok: Rune -> bool, t: Term)
    requires t.InWidth() && t.histIndex >= -1
    requires ok(RUNE_ERROR) && Contents(ok, t)
    ensures Contents(ok, HistoryDown(t)) && HistoryDown(t).histIndex >= -1
  {
    hide Encode, Decode, WriteLine, WriteSpaces, MoveCursorToPos;
  }

  lemma TypeKeyContents(ok: Rune -> bool, t: Term, key: Rune)
    requires t.InWidth() && t.histIndex >= -1
    requires ok(RUNE_ERROR) && Contents(ok, t)
    requires IsPrintable(key) ==> ok(key)
    ensures Contents(ok, TypeKey(t, key)) && TypeKey(t, key).histIndex >= -1
  {
    hide Encode, Decode, WriteLine, WriteSpaces, MoveCursorToPos;
  }

  // ---- Whole runs ----

  /** What can happen to a terminal: a key, the beginning or end of a paste, raw output, a new size. */
  datatype Action = Press(key: Rune) | Paste(active: bool) | Output | SetSize(width: nat)

  /** A key as readLine drives it: a finished line is recorded and the next prompt printed. */
  function PressKey(t: Term, key: Rune): (r: Term)
    requires t.InWidth() && t.histIndex >= -1
    ensures r.InWidth() && r.histIndex >= -1
  {
    var (u, line) := HandleKey(t, key);
    match line
    case None => u
    case Some(l) => ShowPrompt(Record(u, l))
  }

  lemma PressKeyCursor(t: Term, key: Rune)
    requires CursorOk(t) && Contents(NotEscape, t) && key != ESC
    ensures CursorOk(PressKey(t, key)) && Contents(NotEscape, PressKey(t, key))
  {
    hide HandleKey, ShowPrompt;
    HandleKeyCursor(t, key);
    HandleKeyContents(NotEscape, t, key);
    var (u, line) := HandleKey(t, key);
    if line.Some? {
      var v := Record(u, line.value);
      ShowPromptCursor(v);
    }
  }

  /** A decoded key: the brackets of a paste switch its mode, every other key is pressed. */
  function FeedKey(t: Term, key: Rune): (r: Term)
    requires t.InWidth() && t.histIndex >= -1
    ensures r.InWidth() && r.histIndex >= -1
  {
    if !t.paste && key == KEY_PASTE_START then t.(paste := true)
    else if t.paste && key == KEY_PASTE_END then t.(paste := false)
    else PressKey(t, key)
  }

  lemma FeedKeyCursor(t: Term, key: Rune)
    requires CursorOk(t) && Contents(NotEscape, t) && key != ESC
    ensures CursorOk(FeedKey(t, key)) && Contents(NotEscape, FeedKey(t, key))
  {
    hide PressKey;
    PressKeyCursor(t, key);
  }

  function Act(t: Term, a: Action): (r: Term)
    requires t.InWidth() && t.histIndex >= -1
  {
    match a
    case Press(key) => PressKey(t, key)
    case Paste(active) => t.(paste := active)
    case Output => AfterWrite(t)
    case SetSize(width) => Resize(t, width)
  }

  lemma ActCursor(t: Term, a: Action)
    requires CursorOk(t) && Contents(NotEscape, t)
    requires a.Press? ==> a.key != ESC
    ensures CursorOk(Act(t, a)) && Contents(NotEscape, Act(t, a))
  {
    hide PressKey;
    match a
    case Press(key) =>
      PressKeyCursor(t, key);
    case Paste(_) =>
    case Output =>
      WriteCursor(t);
    case SetSize(width) =>
      ResizeCursor(t, width);
  }

  /** The states a terminal goes through under a sequence of actions stay in the invariant, whatever their order. */
  ghost predicate AlwaysOk(t: Term, actions: seq<Action>)
    decreases |actions|
  {
    && CursorOk(t)
    && (actions != [] ==> AlwaysOk(Act(t, actions[0]), actions[1..]))
  }

  lemma {:induction false} CursorAlwaysOk(t: Term, actions: seq<Action>)
    requires CursorOk(t) && Contents(NotEscape, t)
    requires forall i :: 0 <= i < |actions| && actions[i].Press? ==> actions[i].key != ESC
    ensures AlwaysOk(t, actions)
    decreases |actions|
  {
    hide Act, Contents, Row, Col;
    if actions != [] {
      ActCursor(t, actions[0]);
      CursorAlwaysOk(Act(t, actions[0]), actions[1..]);
    }
  }

  /** What the invariant means for a caller: the screen offset of the cursor, and its bounds. */
  lemma CursorOffset(t: Term)
    requires CursorOk(t) && Contents(NotEscape, t)
    ensures t.y * t.width + t.x == VisualLength(t.prompt) + t.Pos()
    ensures 0 <= t.x < t.width && t.Pos() <= |t.Line()| && t.y <= t.maxLine
  {
    VisualIsLength(t.prompt);
    RowColSplit(CursorCell(t), t.width);
    RowMonotone(CursorCell(t), EndCell(t), t.width);
  }
}
