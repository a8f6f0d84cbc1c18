/**
 Screen refinement: for every sequence of keys, what the editor queues, run through the emulator of
 Screen.dfy, shows the prompt followed by the line, blanks after it, and the cursor at the line position.
 */
module Painting {
  import opened Options
  import opened Utf8
  import opened Wrapping
  import opened Screen
  import opened LineEditor
  import opened CursorInvariant

  predicate IsGlyph(r: Rune) {
    r >= SPACE
  }

  /** The screen after the runes queued so far, as the bytes they become are read back. */
  function Scr(s0: Screen, t: Term): Screen {
    Interp(s0, Scalars(t.out))
  }

  function TextAt(text: seq<Rune>, i: nat): Rune {
    if i < |text| then text[i] else SPACE
  }

  /** From row `top` down the screen shows `text` and then nothing. */
  ghost predicate ShowsText(s: Screen, top: nat, text: seq<Rune>) {
    s.width > 0 && forall i: nat :: Shown(s, top, i) == TextAt(text, i)
  }

  /** Editor and emulator agree that the cursor is on cell `p` below `top`. */
  ghost predicate Synced(s0: Screen, t: Term, top: nat, p: nat) {
    && At(t, p)
    && Scr(s0, t).width == t.width
    && AtPos(Scr(s0, t), top, p)
  }

  /** From `t` to `r` the output drew `rs` on the cells from `p` on and left the cursor behind them. */
  ghost predicate Draws(s0: Screen, t: Term, r: Term, top: nat, p: nat, rs: seq<Rune>) {
    && Synced(s0, r, top, p + |rs|)
    && Drawn(Scr(s0, t), Scr(s0, r), top, p, Scalars(rs))
  }

  ghost predicate Painted(s0: Screen, t: Term, top: nat) {
    && CursorOk(t)
    && Synced(s0, t, top, CursorCell(t))
    && ShowsText(Scr(s0, t), top, Scalars(t.prompt + t.Line()))
  }

  // ---- Output primitives on the screen ----

  lemma ScrAppend(s0: Screen, t: Term, r: Term, rs: seq<Rune>)
    requires r.out == t.out + rs
    ensures Scr(s0, r) == Interp(Scr(s0, t), Scalars(rs))
  {
    ScalarsAppend(t.out, rs);
    InterpAppend(s0, Scalars(t.out), Scalars(rs));
  }

  lemma GlyphScalars(rs: seq<Rune>)
    requires Only(IsGlyph, rs)
    ensures Glyphs(Scalars(rs)) && Only(NotEscape, rs)
  {
    forall i | 0 <= i < |rs|
      ensures Scalars(rs)[i] >= SPACE && NotEscape(rs[i])
    {
      assert IsGlyph(rs[i]);
    }
  }

  lemma InterpThen(s: Screen, a: seq<Rune>, b: seq<Rune>)
    ensures Interp(s, Scalars(a + b)) == Interp(Interp(s, Scalars(a)), Scalars(b))
  {
    ScalarsAppend(a, b);
    InterpAppend(s, Scalars(a), Scalars(b));
  }

  lemma InterpNothing(s: Screen)
    ensures Interp(s, []) == s
  {
  }

  lemma ScalarNewline()
    ensures Scalars([CR, LF]) == [CR, LF]
  {
  }

  lemma InterpHop(s: Screen, n: nat, final: Rune)
    requires s.parser == Ground && 'A' as int <= final <= 'D' as int
    ensures Interp(s, Scalars(Hop(n, final))) == if n == 0 then s else s.Control(n, final)
  {
    hide Interp, Itoa;
    var h := Hop(n, final);
    assert Scalars(h) == h;
    if n == 0 {
      InterpNothing(s);
    } else {
      InterpCsi(s, n, final);
    }
  }

  /** The relative moves printed by move() take the cursor exactly from one cell to the other. */
  lemma InterpMoves(s: Screen, up: nat, down: nat, left: nat, right: nat)
    requires s.parser == Ground && !s.pending
    requires up == 0 || down == 0
    requires left == 0 || right == 0
    requires up <= s.row && left <= s.col && s.col + right < s.width
    ensures Interp(s, Scalars(MoveSeq(up, down, left, right))) == s.Goto(s.row - up + down, s.col - left + right)
  {
    hide Hop, Interp, Scalars;
    var a, b, c, d := Hop(up, 'A' as int), Hop(down, 'B' as int), Hop(right, 'C' as int), Hop(left, 'D' as int);
    InterpThen(s, a + b + c, d);
    InterpThen(s, a + b, c);
    InterpThen(s, a, b);
    var s1 := s.Goto(s.row - up, s.col);
    var s2 := s1.Goto(s1.row + down, s1.col);
    var s3 := s2.Goto(s2.row, s2.col + right);
    InterpHop(s, up, 'A' as int);
    InterpHop(s1, down, 'B' as int);
    InterpHop(s2, right, 'C' as int);
    InterpHop(s3, left, 'D' as int);
  }

  lemma MoveDraws(s0: Screen, t: Term, top: nat, p: nat, pos: nat)
    requires Synced(s0, t, top, p)
    requires t.echo && Only(NotEscape, t.prompt)
    ensures var r := MoveCursorToPos(t, pos);
            && Synced(s0, r, top, |t.prompt| + pos)
            && Scr(s0, r).cells == Scr(s0, t).cells
  {
    hide Row, Col, Interp, Scalars, MoveSeq;
    VisualIsLength(t.prompt);
    var q := |t.prompt| + pos;
    var x, y := Col(q, t.width), Row(q, t.width);
    var ms := MoveSeq(Minus(t.y, y), Minus(y, t.y), Minus(t.x, x), Minus(x, t.x));
    ScrAppend(s0, t, MoveCursorToPos(t, pos), ms);
    InterpMoves(Scr(s0, t), Minus(t.y, y), Minus(y, t.y), Minus(t.x, x), Minus(x, t.x));
  }

  /** Glyphs queued from cell `p` on, however they wrap, and the cursor advanced by their number. */
  lemma AdvanceDraws(s0: Screen, t: Term, top: nat, p: nat, rs: seq<Rune>)
    requires Synced(s0, t, top, p) && Only(IsGlyph, rs)
    ensures Draws(s0, t, AdvanceCursor(Queue(t, rs), |rs|), top, p, rs)
  {
    hide Row, Interp, Scalars;
    var u := Queue(t, rs);
    var r := AdvanceCursor(u, |rs|);
    AdvanceAt(u, p, |rs|);
    GlyphScalars(rs);
    ScrAppend(s0, t, u, rs);
    PrintGlyphs(Scr(s0, t), top, p, Scalars(rs));
    if rs != [] && Col(p + |rs|, t.width) == 0 {
      ScrAppend(s0, u, r, [CR, LF]);
      ScalarNewline();
      WrapByNewline(Scr(s0, u), top, p + |rs|);
    } else {
      assert r.out == u.out + [];
      assert r.out == u.out;
    }
  }

  lemma {:induction false} WriteLineDraws(s0: Screen, t: Term, top: nat, p: nat, line: seq<Rune>)
    requires Synced(s0, t, top, p) && Only(IsGlyph, line)
    ensures Draws(s0, t, WriteLine(t, line), top, p, line)
    decreases |line|
  {
    hide Row, Col, Interp, Scalars, AdvanceCursor, VisualFrom, Drawn;
    if line == [] {
      DrawsNothing(s0, t, top, p);
    } else {
      var todo := if |line| > t.width - t.x then t.width - t.x else |line|;
      var a, b := line[..todo], line[todo..];
      GlyphScalars(a);
      VisualIsLength(a);
      AdvanceDraws(s0, t, top, p, a);
      var u := AdvanceCursor(Queue(t, a), todo);
      WriteLineDraws(s0, u, top, p + todo, b);
      DrawsThen(s0, t, u, WriteLine(u, b), top, p, a, b);
      assert a + b == line;
    }
  }

  lemma DrawsNothing(s0: Screen, t: Term, top: nat, p: nat)
    requires Synced(s0, t, top, p)
    ensures Draws(s0, t, t, top, p, [])
  {
    assert Scalars([]) == [];
    DrawnNothing(Scr(s0, t), Scr(s0, t), top, p);
  }

  lemma DrawsThen(s0: Screen, t: Term, u: Term, v: Term, top: nat, p: nat, a: seq<Rune>, b: seq<Rune>)
    requires Draws(s0, t, u, top, p, a) && Draws(s0, u, v, top, p + |a|, b)
    ensures Draws(s0, t, v, top, p, a + b)
  {
    hide Row, Col, Interp;
    ScalarsAppend(a, b);
    DrawnThen(Scr(s0, t), Scr(s0, u), Scr(s0, v), top, p, Scalars(a), Scalars(b));
  }

  lemma {:induction false} WriteSpacesDraws(s0: Screen, t: Term, top: nat, p: nat, n: nat)
    requires Synced(s0, t, top, p)
    ensures Draws(s0, t, WriteSpaces(t, n), top, p, Spaces(n))
    decreases n
  {
    hide Row, Col, Interp, Scalars, WriteLine, Drawn;
    if n == 0 {
      DrawsNothing(s0, t, top, p);
      assert Spaces(0) == [];
    } else {
      WriteLineDraws(s0, t, top, p, [SPACE]);
      WriteSpacesDraws(s0, WriteLine(t, [SPACE]), top, p + 1, n - 1);
      DrawsThen(s0, t, WriteLine(t, [SPACE]), WriteSpaces(t, n), top, p, [SPACE], Spaces(n - 1));
      assert [SPACE] + Spaces(n - 1) == Spaces(n);
    }
  }

  lemma {:induction false} BlankOutDraws(s0: Screen, t: Term, top: nat, p: nat, n: nat)
    requires Synced(s0, t, top, p)
    ensures Draws(s0, t, BlankOut(t, n), top, p, Spaces(n))
    decreases n
  {
    hide Row, Col, Interp, Scalars, AdvanceCursor, Drawn;
    if n == 0 {
      DrawsNothing(s0, t, top, p);
      assert Spaces(0) == [];
    } else {
      var u := AdvanceCursor(Queue(t, [SPACE]), 1);
      AdvanceDraws(s0, t, top, p, [SPACE]);
      BlankOutDraws(s0, u, top, p + 1, n - 1);
      DrawsThen(s0, t, u, BlankOut(t, n), top, p, [SPACE], Spaces(n - 1));
      assert [SPACE] + Spaces(n - 1) == Spaces(n);
    }
  }

  // ---- Edits on the screen ----

  /** Overwriting exactly where two texts differ turns one into the other. */
  lemma Redrawn(s: Screen, u: Screen, top: nat, p: nat, rs: seq<Rune>, text: seq<Rune>, newText: seq<Rune>)
    requires ShowsText(s, top, text) && Drawn(s, u, top, p, rs)
    requires forall i: nat :: TextAt(newText, i) == if p <= i < p + |rs| then rs[i - p] else TextAt(text, i)
    ensures ShowsText(u, top, newText)
  {
  }

  /** Screens that differ in no cell show the same text. */
  lemma SameCells(s: Screen, u: Screen, top: nat, text: seq<Rune>)
    requires ShowsText(s, top, text) && u.cells == s.cells && u.width == s.width
    ensures ShowsText(u, top, text)
  {
    forall i: nat
      ensures Shown(u, top, i) == TextAt(text, i)
    {
      assert Shown(s, top, i) == TextAt(text, i);
    }
  }

  lemma SetLinePaints(s0: Screen, t: Term, top: nat, p: nat, text: seq<Rune>, line: seq<Rune>, pos: nat)
    requires t.echo && t.histIndex >= -1 && Synced(s0, t, top, p)
    requires Row(|t.prompt|, t.width) <= t.maxLine
    requires Only(IsGlyph, t.prompt) && Only(IsGlyph, line) && pos <= |line|
    requires ShowsText(Scr(s0, t), top, Scalars(t.prompt) + text) && |text| <= |t.Line()|
    ensures Painted(s0, SetLine(t, line, pos), top)
  {
    hide Row, Col, Interp, Scalars, WriteLine, WriteSpaces, MoveCursorToPos, Spaces, ShowsText, Drawn;
    GlyphScalars(t.prompt);
    GlyphScalars(line);
    SetLineCursor(t, line, pos);
    var u := MoveCursorToPos(t, 0);
    MoveDraws(s0, t, top, p, 0);
    SameCells(Scr(s0, t), Scr(s0, u), top, Scalars(t.prompt) + text);
    var k := Minus(|t.Line()|, |line|);
    var v := WriteLine(u, line);
    WriteLineDraws(s0, u, top, |t.prompt|, line);
    var w := WriteSpaces(v, k);
    WriteSpacesDraws(s0, v, top, |t.prompt| + |line|, k);
    DrawsThen(s0, u, v, w, top, |t.prompt|, line, Spaces(k));
    var newText := Scalars(t.prompt + line);
    SetLineText(t.prompt, text, line, k);
    Redrawn(Scr(s0, u), Scr(s0, w), top, |t.prompt|, Scalars(line + Spaces(k)), Scalars(t.prompt) + text, newText);
    var r := MoveCursorToPos(w, pos);
    MoveDraws(s0, w, top, |t.prompt| + |line| + k, pos);
    SameCells(Scr(s0, w), Scr(s0, r), top, newText);
    assert SetLine(t, line, pos).out == r.out;
    assert line[..pos] + line[pos..] == line;
  }

  /** Writing a line and then spaces over a longer old text leaves the line and blanks. */
  lemma SetLineText(prompt: seq<Rune>, text: seq<Rune>, line: seq<Rune>, k: nat)
    requires |text| <= |line| + k
    ensures var d := Scalars(line + Spaces(k));
            forall i: nat :: TextAt(Scalars(prompt + line), i) ==
              if |prompt| <= i < |prompt| + |d| then d[i - |prompt|] else TextAt(Scalars(prompt) + text, i)
  {
  }

  lemma AddKeyPaints(s0: Screen, t: Term, top: nat, key: Rune)
    requires Painted(s0, t, top)
    requires Only(IsGlyph, t.prompt) && Only(IsGlyph, t.after) && IsGlyph(key)
    ensures Painted(s0, AddKey(t, key), top)
  {
    hide Row, Col, Interp, Scalars, WriteLine, MoveCursorToPos, ShowsText, Drawn;
    GlyphScalars(t.prompt);
    GlyphScalars(t.after);
    AddKeyCursor(t, key);
    var rest := [key] + t.after;
    var u := WriteLine(t, rest);
    WriteLineDraws(s0, t, top, CursorCell(t), rest);
    InsertText(t.prompt, t.before, t.after, key);
    Redrawn(Scr(s0, t), Scr(s0, u), top, CursorCell(t), Scalars(rest),
            Scalars(t.prompt + t.Line()), Scalars(t.prompt + (t.before + rest)));
    var v := u.(before := t.before + [key]);
    MoveDraws(s0, v, top, CursorCell(t) + |rest|, t.Pos() + 1);
    SameCells(Scr(s0, u), Scr(s0, AddKey(t, key)), top, Scalars(t.prompt + (t.before + rest)));
    assert t.before + rest == (t.before + [key]) + t.after;
  }

  lemma InsertText(prompt: seq<Rune>, before: seq<Rune>, after: seq<Rune>, key: Rune)
    ensures var d := Scalars([key] + after);
            var p := |prompt| + |before|;
            forall i: nat :: TextAt(Scalars(prompt + (before + ([key] + after))), i) ==
              if p <= i < p + |d| then d[i - p] else TextAt(Scalars(prompt + (before + after)), i)
  {
  }

  lemma ErasePaints(s0: Screen, t: Term, top: nat, p: nat, count: nat)
    requires t.echo && t.histIndex >= -1 && Synced(s0, t, top, p) && count > 0
    requires Row(EndCell(t), t.width) <= t.maxLine
    requires ShowsText(Scr(s0, t), top, Scalars(t.prompt + t.Line()))
    requires Only(IsGlyph, t.prompt) && Only(IsGlyph, t.after)
    ensures Painted(s0, Erase(t, count), top)
  {
    hide Row, Col, Interp, Scalars, WriteLine, MoveCursorToPos, AdvanceCursor, Spaces, ShowsText, Drawn;
    GlyphScalars(t.prompt);
    GlyphScalars(t.after);
    EraseCursor(t, count);
    var n := if t.Pos() < count then t.Pos() else count;
    var pos := t.Pos() - n;
    var s := t.(before := t.before[..pos]);
    var u := MoveCursorToPos(s, pos);
    MoveDraws(s0, s, top, p, pos);
    SameCells(Scr(s0, t), Scr(s0, u), top, Scalars(t.prompt + t.Line()));
    var v := WriteLine(u, u.after);
    WriteLineDraws(s0, u, top, CursorCell(u), u.after);
    var w := AdvanceCursor(Queue(v, Spaces(n)), n);
    SpacesAreGlyphs(n);
    AdvanceDraws(s0, v, top, EndCell(u), Spaces(n));
    DrawsThen(s0, u, v, w, top, CursorCell(u), u.after, Spaces(n));
    EraseText(t.prompt, t.before, t.after, pos);
    var newText := Scalars(t.prompt + (t.before[..pos] + t.after));
    Redrawn(Scr(s0, u), Scr(s0, w), top, CursorCell(u), Scalars(t.after + Spaces(n)), Scalars(t.prompt + t.Line()), newText);
    MoveDraws(s0, w, top, EndCell(u) + n, pos);
    SameCells(Scr(s0, w), Scr(s0, Erase(t, count)), top, newText);
  }

  lemma SpacesAreGlyphs(n: nat)
    ensures Only(IsGlyph, Spaces(n)) && |Spaces(n)| == n
  {
  }

  /** Deleting before the cursor: the rest drawn n cells earlier, and n blanks behind it. */
  lemma EraseText(prompt: seq<Rune>, before: seq<Rune>, after: seq<Rune>, pos: nat)
    requires pos <= |before|
    ensures var d := Scalars(after + Spaces(|before| - pos));
            var p := |prompt| + pos;
            forall i: nat :: TextAt(Scalars(prompt + (before[..pos] + after)), i) ==
              if p <= i < p + |d| then d[i - p] else TextAt(Scalars(prompt + (before + after)), i)
  {
  }

  lemma MoveToPaints(s0: Screen, t: Term, top: nat, pos: nat)
    requires Painted(s0, t, top) && Only(IsGlyph, t.prompt) && pos <= |t.Line()|
    ensures Painted(s0, MoveTo(t, pos), top)
  {
    hide Row, Col, Interp, Scalars, MoveCursorToPos, ShowsText;
    GlyphScalars(t.prompt);
    MoveToCursor(t, pos);
    var u := t.(before := t.Line()[..pos], after := t.Line()[pos..]);
    assert u.Line() == t.Line();
    MoveDraws(s0, u, top, CursorCell(t), pos);
    SameCells(Scr(s0, t), Scr(s0, MoveTo(t, pos)), top, Scalars(t.prompt + t.Line()));
  }

  lemma DeleteLinePaints(s0: Screen, t: Term, top: nat)
    requires Painted(s0, t, top) && Only(IsGlyph, t.prompt)
    ensures Painted(s0, MoveCursorToPos(BlankOut(t, |t.after|).(after := []), t.Pos()), top)
  {
    hide Row, Col, Interp, Scalars, BlankOut, MoveCursorToPos, Spaces, ShowsText, Drawn;
    GlyphScalars(t.prompt);
    DeleteLineCursor(t);
    var u := BlankOut(t, |t.after|);
    BlankOutDraws(s0, t, top, CursorCell(t), |t.after|);
    SpacesAreGlyphs(|t.after|);
    DeleteText(t.prompt, t.before, t.after);
    var newText := Scalars(t.prompt + t.before);
    Redrawn(Scr(s0, t), Scr(s0, u), top, CursorCell(t), Scalars(Spaces(|t.after|)), Scalars(t.prompt + t.Line()), newText);
    var v := u.(after := []);
    assert v.Line() == t.before;
    MoveDraws(s0, v, top, EndCell(t), t.Pos());
    SameCells(Scr(s0, u), Scr(s0, MoveCursorToPos(v, t.Pos())), top, newText);
  }

  lemma DeleteText(prompt: seq<Rune>, before: seq<Rune>, after: seq<Rune>)
    ensures var d := Scalars(Spaces(|after|));
            var p := |prompt| + |before|;
            forall i: nat :: TextAt(Scalars(prompt + before), i) ==
              if p <= i < p + |d| then d[i - p] else TextAt(Scalars(prompt + (before + after)), i)
  {
  }

  /** Clear and home puts any screen of the right width into a known state. */
  lemma InterpClear(s: Screen)
    requires s.parser == Ground
    ensures Interp(s, Scalars(CLEAR_AND_HOME)) == s.(cells := map[]).Goto(0, 0)
  {
    hide Interp, Scalars;
    var erase, home := [ESC, BRACKET, '2' as int, 'J' as int], [ESC, BRACKET, 'H' as int];
    assert CLEAR_AND_HOME == erase + home;
    InterpThen(s, erase, home);
    ClearIsScalar();
    InterpCsi(s, 2, 'J' as int);
    assert [ESC, BRACKET] + Itoa(2) + ['J' as int] == erase;
    InterpCsi(s.(cells := map[]), 0, 'H' as int);
  }

  lemma ClearIsScalar()
    ensures Scalars([ESC, BRACKET, '2' as int, 'J' as int]) == [ESC, BRACKET, '2' as int, 'J' as int]
    ensures Scalars([ESC, BRACKET, 'H' as int]) == [ESC, BRACKET, 'H' as int]
  {
  }

  /**
   Ctrl-L repairs the display: whatever the screen shows and wherever its cursor is, for instance after
   raw output or a resize, afterwards it shows prompt and line from row 0 on, and the cursor is right.
   */
  lemma ClearScreenPaints(s0: Screen, t: Term)
    requires t.echo && t.histIndex >= -1 && t.InWidth()
    requires Only(IsGlyph, t.prompt) && Only(IsGlyph, t.before) && Only(IsGlyph, t.after)
    requires Scr(s0, t).parser == Ground && Scr(s0, t).width == t.width
    ensures Painted(s0, ClearScreen(t), 0)
  {
    hide Interp, Scalars, SetLine, MoveCursorToPos, ShowsText, Drawn, Shown;
    GlyphScalars(t.prompt);
    VisualIsLength(t.prompt);
    var a := Queue(t, CLEAR_AND_HOME).(x := 0, y := 0);
    ScrAppend(s0, t, a, CLEAR_AND_HOME);
    InterpClear(Scr(s0, t));
    RowColZero(t.width);
    var u := AdvanceCursor(Queue(a, t.prompt), |t.prompt|);
    AdvanceDraws(s0, a, 0, 0, t.prompt);
    AdvanceAt(Queue(a, t.prompt), 0, |t.prompt|);
    BlankShows(Scr(s0, a), 0);
    PromptText(t.prompt);
    Redrawn(Scr(s0, a), Scr(s0, u), 0, 0, Scalars(t.prompt), [], Scalars(t.prompt) + []);
    SetLinePaints(s0, u, 0, |t.prompt|, [], t.Line(), t.Pos());
    assert ClearScreen(t) == SetLine(u, t.Line(), t.Pos());
  }

  lemma BlankShows(s: Screen, top: nat)
    requires s.width > 0 && s.cells == map[]
    ensures ShowsText(s, top, [])
  {
  }

  lemma PromptText(prompt: seq<Rune>)
    ensures var d := Scalars(prompt);
            forall i: nat :: TextAt(Scalars(prompt) + [], i) == if 0 <= i < |d| then d[i] else TextAt([], i)
  {
  }

  // ---- The end of a line ----

  /** Nothing on the screen from row `top` on, and the cursor at its left edge. */
  ghost predicate Empty(s0: Screen, t: Term, top: nat) {
    && Fresh(t)
    && Synced(s0, t, top, 0)
    && ShowsText(Scr(s0, t), top, [])
  }

  lemma {:induction false} RowColShift(i: nat, k: nat, w: nat) returns (j: nat)
    requires w > 0
    ensures Row(j, w) == Row(i, w) + k && Col(j, w) == Col(i, w)
    decreases k
  {
    if k == 0 {
      j := i;
    } else {
      j := RowColShift(i + w, k - 1, w);
    }
  }

  /** Below the last row of a text everything is blank. */
  lemma BlankBelow(s: Screen, top: nat, text: seq<Rune>)
    requires ShowsText(s, top, text)
    ensures ShowsText(s, top + Row(|text|, s.width) + 1, [])
  {
    hide Row, Col;
    var below := top + Row(|text|, s.width) + 1;
    forall i: nat
      ensures Shown(s, below, i) == SPACE
    {
      var j := RowColShift(i, Row(|text|, s.width) + 1, s.width);
      assert Shown(s, top, j) == TextAt(text, j);
      if j < |text| {
        RowMonotone(j, |text|, s.width);
      }
    }
  }

  lemma EndLinePaints(s0: Screen, t: Term, top: nat)
    requires Painted(s0, t, top) && Only(IsGlyph, t.prompt)
    ensures Empty(s0, EndLine(t), top + Row(EndCell(t), t.width) + 1)
  {
    hide Row, Col, Interp, Scalars, MoveCursorToPos, ShowsText;
    GlyphScalars(t.prompt);
    var text := Scalars(t.prompt + t.Line());
    var u := MoveCursorToPos(t, |t.Line()|);
    MoveDraws(s0, t, top, CursorCell(t), |t.Line()|);
    SameCells(Scr(s0, t), Scr(s0, u), top, text);
    BlankBelow(Scr(s0, u), top, text);
    ScrAppend(s0, u, EndLine(t), [CR, LF]);
    ScalarNewline();
    InterpNewline(Scr(s0, u));
    RowColZero(t.width);
    SameCells(Scr(s0, u), Scr(s0, EndLine(t)), top + Row(EndCell(t), t.width) + 1, []);
  }

  lemma ShowPromptPaints(s0: Screen, t: Term, top: nat)
    requires Empty(s0, t, top) && Only(IsGlyph, t.prompt)
    ensures Painted(s0, ShowPrompt(t), top)
  {
    hide Row, Col, Interp, Scalars, WriteLine, ShowsText, Drawn;
    GlyphScalars(t.prompt);
    ShowPromptCursor(t);
    WriteLineDraws(s0, t, top, 0, t.prompt);
    PromptText(t.prompt);
    Redrawn(Scr(s0, t), Scr(s0, ShowPrompt(t)), top, 0, Scalars(t.prompt), [], Scalars(t.prompt) + []);
    assert t.prompt + t.Line() == t.prompt;
    assert Scalars(t.prompt) + [] == Scalars(t.prompt);
  }

  // ---- Keys ----

  /**
   One key: the display is kept, or the line ends and the rows below are empty. A paste inserts what it is given,
   so there the key must be a glyph or Enter.
   */
  lemma HandleKeyPaints(s0: Screen, t: Term, top: nat, key: Rune)
    requires Painted(s0, t, top) && Contents(IsGlyph, t)
    requires t.paste ==> key == KEY_ENTER || IsGlyph(key)
    ensures var (r, line) := HandleKey(t, key);
            if line.Some? then exists below: nat :: Empty(s0, r, below)
            else exists from: nat :: Painted(s0, r, from)
  {
    hide Row, Col, Interp, Scalars, Erase, MoveTo, AddKey, ClearScreen, TypeKey, BlankOut, HistoryUp, HistoryDown,
         MoveCursorToPos, WordLeft, WordRight, Decode, Encode, ShowsText, EndLine;
    RowMonotone(|t.prompt|, EndCell(t), t.width);
    var r, line := HandleKey(t, key).0, HandleKey(t, key).1;
    if t.paste && key != KEY_ENTER {
      AddKeyPaints(s0, t, top, key);
    } else if key == KEY_BACKSPACE {
      if t.Pos() > 0 { ErasePaints(s0, t, top, CursorCell(t), 1); }
    } else if key == KEY_ALT_LEFT {
      MoveToPaints(s0, t, top, t.Pos() - WordLeft(t.before));
    } else if key == KEY_ALT_RIGHT {
      MoveToPaints(s0, t, top, t.Pos() + WordRight(t.after));
    } else if key == KEY_LEFT {
      if t.Pos() > 0 { MoveToPaints(s0, t, top, t.Pos() - 1); }
    } else if key == KEY_RIGHT {
      if t.after != [] { MoveToPaints(s0, t, top, t.Pos() + 1); }
    } else if key == KEY_HOME {
      MoveToPaints(s0, t, top, 0);
    } else if key == KEY_END {
      MoveToPaints(s0, t, top, |t.Line()|);
    } else if key == KEY_UP {
      HistoryUpPaints(s0, t, top);
    } else if key == KEY_DOWN {
      HistoryDownPaints(s0, t, top);
    } else if key == KEY_CTRL_C || key == KEY_ENTER {
      EndLinePaints(s0, t, top);
    } else if key == KEY_DELETE_WORD {
      EraseAnyPaints(s0, t, top, WordLeft(t.before));
    } else if key == KEY_DELETE_LINE {
      DeleteLinePaints(s0, t, top);
    } else if key == KEY_CTRL_D {
      if t.after != [] {
        var u := t.(before := t.before + [t.after[0]], after := t.after[1..]);
        assert u.Line() == t.Line();
        ErasePaints(s0, u, top, CursorCell(t), 1);
      }
    } else if key == KEY_CTRL_U {
      EraseAnyPaints(s0, t, top, t.Pos());
    } else if key == KEY_CLEAR_SCREEN {
      ClearScreenPaints(s0, t);
    } else {
      TypeKeyPaints(s0, t, top, key);
    }
  }

  lemma EraseAnyPaints(s0: Screen, t: Term, top: nat, count: nat)
    requires Painted(s0, t, top) && Contents(IsGlyph, t)
    ensures Painted(s0, Erase(t, count), top)
  {
    hide Row, Col, Interp, Scalars, ShowsText, MoveCursorToPos, WriteLine, AdvanceCursor;
    if count > 0 {
      ErasePaints(s0, t, top, CursorCell(t), count);
    }
  }

  lemma ReplaceLinePaints(s0: Screen, t: Term, top: nat, line: seq<Rune>, pos: nat)
    requires Painted(s0, t, top) && Only(IsGlyph, t.prompt) && Only(IsGlyph, line) && pos <= |line|
    ensures Painted(s0, SetLine(t, line, pos), top)
  {
    hide Row, Col, Interp, Scalars, ShowsText, SetLine;
    RowMonotone(|t.prompt|, EndCell(t), t.width);
    ScalarsAppend(t.prompt, t.Line());
    SetLinePaints(s0, t, top, CursorCell(t), Scalars(t.Line()), line, pos);
  }

  lemma HistoryUpPaints(s0: Screen, t: Term, top: nat)
    requires Painted(s0, t, top) && Contents(IsGlyph, t)
    ensures Painted(s0, HistoryUp(t), top)
  {
    hide Row, Col, Interp, Scalars, ShowsText, SetLine, Decode, Encode;
    match NthPrevious(t.history, t.histIndex + 1)
    case None =>
    case Some(entry) =>
      var pending := if t.histIndex == -1 then Encode(t.Line()) else t.histPending;
      var u := t.(histPending := pending, histIndex := t.histIndex + 1);
      ReplaceLinePaints(s0, u, top, Decode(entry), |Decode(entry)|);
  }

  lemma HistoryDownPaints(s0: Screen, t: Term, top: nat)
    requires Painted(s0, t, top) && Contents(IsGlyph, t)
    ensures Painted(s0, HistoryDown(t), top)
  {
    hide Row, Col, Interp, Scalars, ShowsText, SetLine, Decode, Encode;
    if t.histIndex == 0 {
      ReplaceLinePaints(s0, t, top, Decode(t.histPending), |Decode(t.histPending)|);
    } else if t.histIndex > 0 {
      match NthPrevious(t.history, t.histIndex - 1)
      case None =>
      case Some(entry) => ReplaceLinePaints(s0, t.(histIndex := t.histIndex - 1), top, Decode(entry), |Decode(entry)|);
    }
  }

  lemma TypeKeyPaints(s0: Screen, t: Term, top: nat, key: Rune)
    requires Painted(s0, t, top) && Contents(IsGlyph, t)
    ensures Painted(s0, TypeKey(t, key), top)
  {
    hide Row, Col, Interp, Scalars, ShowsText, SetLine, AddKey, Decode, Encode;
    var prefix, suffix := Encode(t.before), Encode(t.after);
    match t.complete(prefix + suffix, |prefix|, key)
    case Some((newLine, newPos)) =>
      ReplaceLinePaints(s0, t, top, Decode(newLine), |Decode(newLine[..newPos])|);
    case None =>
      if IsPrintable(key) && |t.Line()| != MAX_LINE_LENGTH {
        AddKeyPaints(s0, t, top, key);
      }
  }

  // ---- Whole sessions ----

  function FeedKeys(t: Term, keys: seq<Rune>): (r: Term)
    requires t.InWidth() && t.histIndex >= -1
    decreases |keys|
  {
    if keys == [] then t else FeedKeys(FeedKey(t, keys[0]), keys[1..])
  }

  /** Between the brackets of a paste there are only glyphs and Enters. */
  predicate PastesGlyphs(paste: bool, keys: seq<Rune>)
    decreases |keys|
  {
    keys == [] ||
    (&& (paste ==> keys[0] == KEY_ENTER || keys[0] == KEY_PASTE_END || IsGlyph(keys[0]))
     && PastesGlyphs(ModeAfter(paste, keys[0]), keys[1..]))
  }

  lemma PressKeyPaints(s0: Screen, t: Term, top: nat, key: Rune) returns (top': nat)
    requires Painted(s0, t, top) && Contents(IsGlyph, t)
    requires t.paste ==> key == KEY_ENTER || IsGlyph(key)
    ensures var r := PressKey(t, key);
            Painted(s0, r, top') && Contents(IsGlyph, r) && r.paste == t.paste
  {
    hide HandleKey, ShowPrompt, Interp, Scalars, ShowsText, Row, Col;
    HandleKeyPaints(s0, t, top, key);
    HandleKeyContents(IsGlyph, t, key);
    HandleKeyMode(t, key);
    var u, line := HandleKey(t, key).0, HandleKey(t, key).1;
    if line.Some? {
      top' :| Empty(s0, u, top');
      ShowPromptPaints(s0, Record(u, line.value), top');
    } else {
      top' :| Painted(s0, u, top');
    }
  }

  /** handleKey never changes the paste mode. */
  lemma HandleKeyMode(t: Term, key: Rune)
    requires t.InWidth() && t.histIndex >= -1
    ensures HandleKey(t, key).0.paste == t.paste
  {
    hide Erase, MoveTo, AddKey, ClearScreen, TypeKey, BlankOut, MoveCursorToPos, WordLeft, WordRight, Decode, Encode,
         EndLine, SetLine;
  }

  /** The editor as NewTerminal makes it. */
  function NewTerm(prompt: seq<Rune>, width: nat, complete: Completer): Term {
    Term(prompt, complete, [], [], true, false, 0, 0, 0, width, [], [], -1, [])
  }

  function BlankScreen(width: nat, row: nat): Screen {
    Screen(width, row, 0, false, Ground, map[])
  }

  lemma FeedKeyPaints(s0: Screen, t: Term, top: nat, key: Rune) returns (top': nat)
    requires Painted(s0, t, top) && Contents(IsGlyph, t)
    requires t.paste ==> key == KEY_ENTER || key == KEY_PASTE_END || IsGlyph(key)
    ensures var r := FeedKey(t, key);
            Painted(s0, r, top') && Contents(IsGlyph, r) && r.paste == ModeAfter(t.paste, key)
  {
    hide PressKey, Interp, Scalars, ShowsText, Row, Col;
    if (!t.paste && key == KEY_PASTE_START) || (t.paste && key == KEY_PASTE_END) {
      top' := top;
    } else {
      top' := PressKeyPaints(s0, t, top, key);
    }
  }

  lemma {:induction false} FeedKeysPaints(s0: Screen, t: Term, top: nat, keys: seq<Rune>)
    requires Painted(s0, t, top) && Contents(IsGlyph, t) && PastesGlyphs(t.paste, keys)
    ensures exists top': nat :: Painted(s0, FeedKeys(t, keys), top')
    decreases |keys|
  {
    hide FeedKey, Interp, Scalars, ShowsText, Row, Col;
    if keys != [] {
      var top' := FeedKeyPaints(s0, t, top, keys[0]);
      FeedKeysPaints(s0, FeedKey(t, keys[0]), top', keys[1..]);
      var from: nat :| Painted(s0, FeedKeys(FeedKey(t, keys[0]), keys[1..]), from);
      assert Painted(s0, FeedKeys(t, keys), from);
    } else {
      assert Painted(s0, FeedKeys(t, keys), top);
    }
  }

  /** The screen shows prompt and line from row `top` on, and its cursor is where the editor says. */
  ghost predicate Displays(s: Screen, top: nat, prompt: seq<Rune>, t: Term) {
    && ShowsText(s, top, Scalars(prompt + t.Line()))
    && AtPos(s, top, |prompt| + t.Pos())
    && s.col == t.x && s.row == top + t.y
  }

  /**
   The main result: start on a blank screen, print the prompt and feed any keys, pastes of glyphs included.
   The bytes sent, read back and run through the emulator, show from some row on the prompt and the
   line being edited and then nothing, with the cursor on the cell of the line position.
   */
  lemma ScreenRefinement(prompt: seq<Rune>, width: nat, row: nat, complete: Completer, keys: seq<Rune>)
    requires width > 0 && Only(IsGlyph, prompt)
    requires forall line, pos, key :: complete(line, pos, key).Some? ==>
               Only(IsGlyph, Decode(complete(line, pos, key).value.0))
    requires PastesGlyphs(false, keys)
    ensures var t := FeedKeys(ShowPrompt(NewTerm(prompt, width, complete)), keys);
            var s := Interp(BlankScreen(width, row), Decode(Encode(t.out)));
            exists top: nat :: Displays(s, top, prompt, t)
  {
    hide Interp, Scalars, Displays, ShowPrompt, FeedKeys, PastesGlyphs, Row, Col, Encode, Decode;
    var s0, t0 := BlankScreen(width, row), NewTerm(prompt, width, complete);
    NewTermIsEmpty(prompt, width, row, complete);
    ShowPromptPaints(s0, t0, row);
    var t := ShowPrompt(t0);
    OnlyNothing(IsGlyph);
    FeedKeysPaints(s0, t, row, keys);
    FeedKeysContext(t, keys);
    var r := FeedKeys(t, keys);
    DecodeEncode(r.out);
    var top: nat :| Painted(s0, r, top);
    PaintedDisplays(s0, r, top);
    assert Displays(Interp(s0, Decode(Encode(r.out))), top, prompt, r);
  }

  lemma PaintedDisplays(s0: Screen, t: Term, top: nat)
    requires Painted(s0, t, top)
    ensures Displays(Scr(s0, t), top, t.prompt, t)
  {
  }

  lemma NewTermIsEmpty(prompt: seq<Rune>, width: nat, row: nat, complete: Completer)
    requires width > 0
    ensures Empty(BlankScreen(width, row), NewTerm(prompt, width, complete), row)
  {
    RowColZero(width);
    assert Scalars([]) == [];
    BlankShows(BlankScreen(width, row), row);
  }

  lemma {:induction false} FeedKeysContext(t: Term, keys: seq<Rune>)
    requires t.InWidth() && t.histIndex >= -1
    ensures FeedKeys(t, keys).prompt == t.prompt && FeedKeys(t, keys).width == t.width
    decreases |keys|
  {
    hide PressKey;
    if keys != [] {
      PressKeyContext(t, keys[0]);
      FeedKeysContext(FeedKey(t, keys[0]), keys[1..]);
    }
  }

  lemma PressKeyContext(t: Term, key: Rune)
    requires t.InWidth() && t.histIndex >= -1
    ensures PressKey(t, key).prompt == t.prompt && PressKey(t, key).width == t.width
  {
    hide Erase, MoveTo, AddKey, ClearScreen, TypeKey, BlankOut, MoveCursorToPos, WordLeft, WordRight, Decode, Encode,
         EndLine, SetLine, ShowPrompt;
  }
}
