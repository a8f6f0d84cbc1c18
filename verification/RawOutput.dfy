/**
 What the screen shows around raw output and after a resize: which rows are blanked before, and that prompt and line
 are drawn again in full behind it.
 */
module RawOutput {
  import opened Options
  import opened Utf8
  import opened Wrapping
  import opened Screen
  import opened LineEditor
  import opened CursorInvariant
  import opened Painting

  /** The cursor rests on a cell, outside any control sequence. */
  predicate Rests(s: Screen, row: nat, col: nat) {
    s.parser == Ground && !s.pending && s.row == row && s.col == col && col < s.width
  }

  /** The rows from `first` to `last` are blank, all others as before. */
  ghost predicate Blanked(s: Screen, u: Screen, first: nat, last: int) {
    && u.width == s.width
    && forall r: nat, c: nat :: u.Cell(r, c) == if first <= r <= last then SPACE else s.Cell(r, c)
  }

  /** Erasing to the right from the left edge blanks the row. */
  lemma EraseRow(s: Screen)
    requires s.parser == Ground && !s.pending && s.col == 0 && s.width > 0
    ensures var u := Interp(s, Scalars(ERASE_RIGHT)); Rests(u, s.row, 0) && Blanked(s, u, s.row, s.row)
  {
    hide Interp, Scalars;
    assert Scalars(ERASE_RIGHT) == ERASE_RIGHT by { EraseIsScalar(); }
    InterpCsi(s, 0, 'K' as int);
  }

  lemma EraseIsScalar()
    ensures Scalars(ERASE_RIGHT) == ERASE_RIGHT
  {
  }

  lemma BlankedThen(s: Screen, u: Screen, v: Screen, first: nat, last: int, row: nat)
    requires Blanked(s, u, row, row) && Blanked(u, v, first, last) && (row == last + 1 || row + 1 == first) && first <= last + 1
    ensures Blanked(s, v, if row < first then row else first, if row > last then row else last)
  {
  }

  lemma MovedBlank(s: Screen, t: Screen, u: Screen, first: nat, last: int)
    requires t.width == s.width && t.cells == s.cells && Blanked(t, u, first, last)
    ensures Blanked(s, u, first, last)
  {
    assert forall r: nat, c: nat :: t.Cell(r, c) == s.Cell(r, c);
  }

  // ---- Before raw output ----

  /** One row further up, blanked. */
  lemma UpAndErase(s: Screen)
    requires Rests(s, s.row, 0) && s.row > 0
    ensures var u := Interp(s, Scalars(Hop(1, 'A' as int) + ERASE_RIGHT));
            Rests(u, s.row - 1, 0) && Blanked(s, u, s.row - 1, s.row - 1)
  {
    hide Interp, Scalars, Hop;
    InterpThen(s, Hop(1, 'A' as int), ERASE_RIGHT);
    InterpHop(s, 1, 'A' as int);
    var m := s.Goto(s.row - 1, 0);
    EraseRow(m);
    MovedBlank(s, m, Interp(m, Scalars(ERASE_RIGHT)), s.row - 1, s.row - 1);
  }

  lemma {:induction false} ClearUpBlanks(s0: Screen, t: Term, top: nat)
    requires Rests(Scr(s0, t), top + t.y, 0)
    ensures var u := Scr(s0, ClearUp(t)); Rests(u, top, 0) && Blanked(Scr(s0, t), u, top, top + t.y - 1)
    decreases t.y
  {
    hide Interp, Scalars, Hop, Blanked;
    if t.y == 0 {
      NothingBlanked(Scr(s0, t), top);
    } else {
      var rs := Hop(1, 'A' as int) + ERASE_RIGHT;
      var u := Queue(t, rs).(y := t.y - 1);
      ScrAppend(s0, t, u, rs);
      UpAndErase(Scr(s0, t));
      ClearUpBlanks(s0, u, top);
      BlankedThen(Scr(s0, t), Scr(s0, u), Scr(s0, ClearUp(u)), top, top + t.y - 2, top + t.y - 1);
    }
  }

  lemma NothingBlanked(s: Screen, top: nat)
    ensures Blanked(s, s, top, top - 1)
  {
  }

  /**
   Before raw output exactly the rows of the display down to the cursor's are blanked, and the cursor waits at the
   left edge of the first; the rows below the cursor keep what they show.
   */
  lemma HideLineBlanks(s0: Screen, t: Term, top: nat)
    requires Painted(s0, t, top)
    ensures var u := Scr(s0, HideLine(t));
            Rests(u, top, 0) && Blanked(Scr(s0, t), u, top, top + t.y)
  {
    hide Interp, Scalars, Hop, Blanked, ShowsText, Row, Col;
    var s := Scr(s0, t);
    var rs := Hop(t.x, 'D' as int) + ERASE_RIGHT;
    var v := Queue(t, rs).(x := 0);
    ScrAppend(s0, t, v, rs);
    InterpThen(s, Hop(t.x, 'D' as int), ERASE_RIGHT);
    InterpHop(s, t.x, 'D' as int);
    LeftEdge(s, t.x);
    var m := s.Goto(s.row, 0);
    EraseRow(m);
    MovedBlank(s, m, Scr(s0, v), top + t.y, top + t.y);
    ClearUpBlanks(s0, v, top);
    BlankedThen(s, Scr(s0, v), Scr(s0, ClearUp(v)), top, top + t.y - 1, top + t.y);
  }

  lemma LeftEdge(s: Screen, x: nat)
    requires s.parser == Ground && !s.pending && s.col == x
    ensures (if x == 0 then s else s.Control(x, 'D' as int)) == s.Goto(s.row, 0)
  {
  }

  // ---- Behind it ----

  /** Prompt and line drawn from the left edge of an empty part of the screen. */
  lemma ShowLinePaints(s0: Screen, t: Term, top: nat)
    requires t.echo && t.histIndex >= -1 && t.x == 0 && t.y == 0 && Synced(s0, t, top, 0)
    requires ShowsText(Scr(s0, t), top, [])
    requires Only(IsGlyph, t.prompt) && Only(IsGlyph, t.before) && Only(IsGlyph, t.after)
    ensures Painted(s0, ShowLine(t), top)
  {
    hide Row, Col, Interp, Scalars, WriteLine, MoveCursorToPos, ShowsText, Drawn, Shown;
    LineIsGlyphs(t);
    var u := WriteLine(t, t.prompt);
    WriteLineDraws(s0, t, top, 0, t.prompt);
    var v := WriteLine(u, t.Line());
    WriteLineDraws(s0, u, top, |t.prompt|, t.Line());
    DrawsThen(s0, t, u, v, top, 0, t.prompt, t.Line());
    LineDrawn(s0, t, v, top);
    MoveDraws(s0, v, top, EndCell(t), t.Pos());
    SameCells(Scr(s0, v), Scr(s0, MoveCursorToPos(v, t.Pos())), top, Scalars(t.prompt + t.Line()));
    ShowLineCursor(t);
  }

  lemma LineIsGlyphs(t: Term)
    requires Only(IsGlyph, t.prompt) && Only(IsGlyph, t.before) && Only(IsGlyph, t.after)
    ensures Only(IsGlyph, t.Line()) && Only(NotEscape, t.prompt) && Only(NotEscape, t.before) && Only(NotEscape, t.after)
  {
    GlyphScalars(t.prompt);
    GlyphScalars(t.before);
    GlyphScalars(t.after);
  }

  /** Prompt and line drawn on a blank part of the screen are what it shows. */
  lemma LineDrawn(s0: Screen, t: Term, v: Term, top: nat)
    requires Draws(s0, t, v, top, 0, t.prompt + t.Line()) && ShowsText(Scr(s0, t), top, [])
    ensures ShowsText(Scr(s0, v), top, Scalars(t.prompt + t.Line()))
  {
    hide Row, Col, Interp, Scalars, ShowsText, Drawn, Shown;
    var text := t.prompt + t.Line();
    PromptText(text);
    Redrawn(Scr(s0, t), Scr(s0, v), top, 0, Scalars(text), [], Scalars(text) + []);
    assert Scalars(text) + [] == Scalars(text);
  }

  /**
   Write as a whole, seen from the screen `s1` that the raw bytes leave: if its cursor is at the left edge and nothing is
   below, as after output that ends in a line feed at the bottom, prompt and line are shown in full.
   */
  lemma WriteRedraws(s1: Screen, t: Term)
    requires CursorOk(t) && Contents(IsGlyph, t) && (t.x != 0 || t.y != 0)
    requires s1.width == t.width && Rests(s1, s1.row, 0) && ShowsText(s1, s1.row, [])
    ensures Painted(s1, AfterWrite(t), s1.row)
  {
    hide Row, Col, Interp, ShowLine, ShowsText;
    var u := HideLine(t).(out := [], x := 0, y := 0);
    RowColZero(t.width);
    NothingOut(s1, u);
    ShowLinePaints(s1, u, s1.row);
  }

  lemma NothingOut(s1: Screen, u: Term)
    requires u.out == []
    ensures Scr(s1, u) == s1
  {
    assert Scalars([]) == [];
  }

  // ---- After a resize ----

  lemma DownAndErase(s: Screen)
    requires Rests(s, s.row, 0)
    ensures var u := Interp(s, Scalars(Hop(1, 'B' as int) + ERASE_RIGHT));
            Rests(u, s.row + 1, 0) && Blanked(s, u, s.row + 1, s.row + 1)
  {
    hide Interp, Scalars, Hop;
    InterpThen(s, Hop(1, 'B' as int), ERASE_RIGHT);
    InterpHop(s, 1, 'B' as int);
    var m := s.Goto(s.row + 1, 0);
    EraseRow(m);
    MovedBlank(s, m, Interp(m, Scalars(ERASE_RIGHT)), s.row + 1, s.row + 1);
  }

  lemma {:induction false} ClearDownBlanks(s0: Screen, t: Term, top: nat, rows: nat)
    requires Rests(Scr(s0, t), top + t.y, 0) && t.y <= rows
    ensures var u := Scr(s0, ClearDown(t, rows));
            && Rests(u, top + rows, 0) && Blanked(Scr(s0, t), u, top + t.y + 1, top + rows)
            && ClearDown(t, rows).y == rows
    decreases rows - t.y
  {
    hide Interp, Scalars, Hop, Blanked;
    if t.y == rows {
      NothingBlanked(Scr(s0, t), top + t.y + 1);
    } else {
      var rs := Hop(1, 'B' as int) + ERASE_RIGHT;
      var u := Queue(t, rs).(y := t.y + 1);
      ScrAppend(s0, t, u, rs);
      DownAndErase(Scr(s0, t));
      ClearDownBlanks(s0, u, top, rows);
      BlankedThen(Scr(s0, t), Scr(s0, u), Scr(s0, ClearDown(u, rows)), top + t.y + 2, top + rows, top + t.y + 1);
    }
  }

  /** The old rows are blanked from the first one down, and the cursor is back at its left edge. */
  lemma EraseRowsBlanks(s0: Screen, t: Term, top: nat, rows: nat)
    requires Rests(Scr(s0, t), top + t.y, t.x)
    ensures var u := Scr(s0, EraseRows(t, rows));
            Rests(u, top, 0) && Blanked(Scr(s0, t), u, top, top + rows)
  {
    hide Interp, Scalars, Hop, MoveSeq, Blanked, ClearDown;
    var s := Scr(s0, t);
    var rs := MoveSeq(t.y, 0, t.x, 0) + ERASE_RIGHT;
    var u := Queue(t, rs).(x := 0, y := 0);
    ScrAppend(s0, t, u, rs);
    InterpThen(s, MoveSeq(t.y, 0, t.x, 0), ERASE_RIGHT);
    InterpMoves(s, t.y, 0, t.x, 0);
    var m := s.Goto(top, 0);
    EraseRow(m);
    MovedBlank(s, m, Scr(s0, u), top, top);
    ClearDownBlanks(s0, u, top, rows);
    var v := ClearDown(u, rows);
    BlankedThen(s, Scr(s0, u), Scr(s0, v), top + 1, top + rows, top);
    var w := Queue(v, Hop(rows, 'A' as int)).(x := 0, y := 0);
    ScrAppend(s0, v, w, Hop(rows, 'A' as int));
    InterpHop(Scr(s0, v), rows, 'A' as int);
    BackUp(Scr(s0, v), top, rows);
    SameBlank(s, Scr(s0, v), Scr(s0, w), top, top + rows);
  }

  lemma BackUp(s: Screen, top: nat, rows: nat)
    requires Rests(s, top + rows, 0)
    ensures (if rows == 0 then s else s.Control(rows, 'A' as int)) == s.Goto(top, 0)
  {
  }

  lemma SameBlank(s: Screen, u: Screen, v: Screen, first: nat, last: int)
    requires Blanked(s, u, first, last) && v.width == u.width && v.cells == u.cells
    ensures Blanked(s, v, first, last)
  {
    assert forall r: nat, c: nat :: v.Cell(r, c) == u.Cell(r, c);
  }

  lemma RedrawPaints(s0: Screen, t: Term, top: nat)
    requires t.echo && t.histIndex >= -1 && t.x == 0 && t.y == 0 && Synced(s0, t, top, 0)
    requires ShowsText(Scr(s0, t), top, [])
    requires Only(IsGlyph, t.prompt) && Only(IsGlyph, t.before) && Only(IsGlyph, t.after)
    ensures Painted(s0, Redraw(t), top)
  {
    hide Row, Col, Interp, Scalars, WriteLine, MoveCursorToPos, AdvanceCursor, ShowsText, Drawn, Shown;
    LineIsGlyphs(t);
    VisualIsLength(t.prompt);
    var u := AdvanceCursor(Queue(t, t.prompt), |t.prompt|);
    AdvanceDraws(s0, t, top, 0, t.prompt);
    var v := WriteLine(u, t.Line());
    WriteLineDraws(s0, u, top, |t.prompt|, t.Line());
    DrawsThen(s0, t, u, v, top, 0, t.prompt, t.Line());
    LineDrawn(s0, t, v, top);
    MoveDraws(s0, v, top, EndCell(t), t.Pos());
    SameCells(Scr(s0, v), Scr(s0, MoveCursorToPos(v, t.Pos())), top, Scalars(t.prompt + t.Line()));
    RedrawCursor(t);
  }

  /**
   The repaint after a resize, for a screen whose cursor is where the editor takes it to be and whose last row in use is
   at most `rows` below the first: afterwards it shows prompt and line in full, and nothing else from there down.
   */
  lemma RepaintPaints(s0: Screen, t: Term, top: nat, rows: nat)
    requires t.echo && t.histIndex >= -1 && t.width > 0 && Scr(s0, t).width == t.width
    requires Rests(Scr(s0, t), top + t.y, t.x)
    requires forall r: nat, c: nat :: r > top + rows ==> Scr(s0, t).Cell(r, c) == SPACE
    requires Only(IsGlyph, t.prompt) && Only(IsGlyph, t.before) && Only(IsGlyph, t.after)
    ensures Painted(s0, Repaint(t, rows), top)
  {
    hide Row, Col, Interp, Scalars, Redraw, EraseRows;
    EraseRowsBlanks(s0, t, top, rows);
    RowColZero(t.width);
    var u := EraseRows(t, rows);
    assert ShowsText(Scr(s0, u), top, []);
    RedrawPaints(s0, u, top);
  }

  /** Below the last row that was drawn on nothing is shown. */
  lemma NothingBelow(s: Screen, t: Term, top: nat, r: nat, c: nat)
    requires s.width == t.width > c && r > top + t.maxLine && Row(EndCell(t), t.width) <= t.maxLine
    requires ShowsText(s, top, Scalars(t.prompt + t.Line()))
    ensures s.Cell(r, c) == SPACE
  {
    hide Row, Col;
    var j := RowColShift(c, r - top, s.width);
    FirstRow(c, s.width);
    assert Shown(s, top, j) == TextAt(Scalars(t.prompt + t.Line()), j);
    if j < EndCell(t) {
      RowMonotone(j, EndCell(t), s.width);
    }
  }

  lemma FirstRow(c: nat, w: nat)
    requires c < w
    ensures Row(c, w) == 0 && Col(c, w) == c
  {
  }

  /**
   Growing a terminal that leaves what it shows where it is: prompt and line are laid out anew for the new width,
   from the same row on, and nothing of the old layout remains.
   */
  lemma WiderPaints(s0: Screen, t: Term, top: nat, width: nat)
    requires Painted(s0, t, top) && Contents(IsGlyph, t) && width > t.width && (t.x != 0 || t.y != 0)
    requires forall r: nat, c: nat :: c >= t.width ==> Scr(s0, t).Cell(r, c) == SPACE
    ensures Painted(Scr(s0, t).(width := width), Resize(t.(out := []), width), top)
  {
    hide Row, Col, Interp, Repaint, ShowsText, Scalars;
    var s := Scr(s0, t);
    var s1, u := s.(width := width), t.(out := [], width := width);
    NothingOut(s1, u);
    forall r: nat, c: nat | r > top + t.maxLine
      ensures s1.Cell(r, c) == SPACE
    {
      if c < t.width {
        NothingBelow(s, t, top, r, c);
      }
      assert s1.Cell(r, c) == s.Cell(r, c);
    }
    RepaintPaints(s1, u, top, t.maxLine);
  }

  /**
   Shrinking a terminal that wraps every row in use into two: if its cursor is then twice as many rows down, at the
   right edge if it was beyond it, and nothing is below twice the rows drawn on, prompt and line are shown in full.
   */
  lemma NarrowerPaints(s1: Screen, t: Term, top: nat, width: nat)
    requires CursorOk(t) && Contents(IsGlyph, t) && 0 < width < t.width && (t.x != 0 || t.y != 0)
    requires s1.width == width && Rests(s1, top + 2 * t.y, if t.x < width then t.x else width - 1)
    requires forall r: nat, c: nat :: r > top + 2 * t.maxLine ==> s1.Cell(r, c) == SPACE
    ensures Painted(s1, Resize(t.(out := []), width), top)
  {
    hide Row, Col, Interp, Repaint, Scalars;
    var u := t.(out := [], width := width, x := if t.x >= width then width - 1 else t.x, y := t.y * 2);
    NothingOut(s1, u);
    RepaintPaints(s1, u, top, t.maxLine * 2);
  }

  /** Raw output when nothing is displayed prints nothing of the editor's. */
  lemma QuietWrite(t: Term)
    requires t.InWidth() && t.x == 0 && t.y == 0
    ensures AfterWrite(t) == t.(out := [])
  {
  }

  /** A resize to the same width, or of a terminal that shows nothing, prints nothing. */
  lemma QuietResize(t: Term, width: nat)
    requires t.InWidth()
    requires width == t.width || (t.Line() == [] && t.x == 0 && t.y == 0)
    ensures Resize(t, width).out == t.out
  {
  }
}
