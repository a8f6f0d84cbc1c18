/**
 The line editor of pkg/terminal/treminal.go as a function on values: the line is the pair of the
 runes before and after the cursor, `out` the runes queued for the terminal since the last raw write.
 `Terminal` (Terminal.dfy) is the editor in the source's own form, proved equal to this one.
 */
module LineEditor {
  import opened Options
  import opened Utf8
  import opened Wrapping
  import opened Screen

  const KEY_CTRL_C: Rune := 3
  const KEY_CTRL_D: Rune := 4
  const KEY_CTRL_U: Rune := 21
  const KEY_ENTER: Rune := CR
  const KEY_BACKSPACE: Rune := 127
  const KEY_UNKNOWN: Rune := 0xD806
  const KEY_UP: Rune := 0xD807
  const KEY_DOWN: Rune := 0xD808
  const KEY_LEFT: Rune := 0xD809
  const KEY_RIGHT: Rune := 0xD80A
  const KEY_ALT_LEFT: Rune := 0xD80B
  const KEY_ALT_RIGHT: Rune := 0xD80C
  const KEY_HOME: Rune := 0xD80D
  const KEY_END: Rune := 0xD80E
  const KEY_DELETE_WORD: Rune := 0xD80F
  const KEY_DELETE_LINE: Rune := 0xD810
  const KEY_CLEAR_SCREEN: Rune := 0xD811
  const KEY_PASTE_START: Rune := 0xD812
  const KEY_PASTE_END: Rune := 0xD813

  const MAX_LINE_LENGTH := 4096
  const HISTORY_SIZE := 100

  /** Line and byte position in, replacement line and byte position out. */
  type Completion = Option<(seq<byte>, nat)>

  /** A callback must return a position inside its line, and one that counts no more runes than the line has. */
  ghost predicate Proper(f: (seq<byte>, nat, Rune) -> Completion) {
    forall line, pos, key :: f(line, pos, key).Some? ==>
      var (newLine, newPos) := f(line, pos, key).value;
      newPos <= |newLine| && |Decode(newLine[..newPos])| <= |Decode(newLine)|
  }

  /** AutoCompleteCallback; no callback is one that never completes. */
  type Completer = f: (seq<byte>, nat, Rune) -> Completion | Proper(f) ghost witness (_, _, _) => None

  datatype Term = Term(
    prompt: seq<Rune>, complete: Completer,
    before: seq<Rune>, after: seq<Rune>,
    echo: bool, paste: bool,
    x: nat, y: nat, maxLine: nat, width: nat,
    out: seq<Rune>,
    history: seq<seq<byte>>, histIndex: int, histPending: seq<byte>)
  {
    function Pos(): nat { |before| }

    function Line(): seq<Rune> { before + after }

    /** A column inside the screen: what writeLine needs to make progress. */
    predicate InWidth() { x < width }
  }

  // ---- What an operation leaves alone ----

  /** Everything but the line, the cursor and the output is as before. */
  ghost predicate SameContext(t: Term, r: Term) {
    && r.prompt == t.prompt && r.echo == t.echo && r.paste == t.paste && r.width == t.width
    && r.history == t.history && r.histIndex == t.histIndex && r.histPending == t.histPending
    && r.complete == t.complete
  }

  /** The line, the modes and the history are as before. */
  ghost predicate OutputOnly(t: Term, r: Term) {
    SameContext(t, r) && r.before == t.before && r.after == t.after
  }

  // ---- Output primitives ----

  function Queue(t: Term, rs: seq<Rune>): Term {
    t.(out := t.out + rs)
  }

  function VisualFrom(rs: seq<Rune>, inEscape: bool): nat {
    if rs == [] then 0
    else if inEscape then
      var letter := 'a' as int <= rs[0] <= 'z' as int || 'A' as int <= rs[0] <= 'Z' as int;
      VisualFrom(rs[1..], !letter)
    else if rs[0] == ESC then VisualFrom(rs[1..], true)
    else 1 + VisualFrom(rs[1..], false)
  }

  /** The number of glyphs, escape sequences not counted. */
  function VisualLength(rs: seq<Rune>): nat {
    VisualFrom(rs, false)
  }

  function Hop(n: nat, final: Rune): seq<Rune> {
    if n == 0 then []
    else if n == 1 then [ESC, BRACKET, final]
    else [ESC, BRACKET] + Itoa(n) + [final]
  }

  function MoveSeq(up: nat, down: nat, left: nat, right: nat): seq<Rune> {
    Hop(up, 'A' as int) + Hop(down, 'B' as int) + Hop(right, 'C' as int) + Hop(left, 'D' as int)
  }

  function Minus(a: nat, b: nat): nat {
    if a > b then a - b else 0
  }

  function MoveCursorToPos(t: Term, pos: nat): (r: Term)
    requires t.width > 0
    ensures t.InWidth() ==> r.InWidth()
    ensures OutputOnly(t, r)
  {
    if !t.echo then t
    else
      var p := VisualLength(t.prompt) + pos;
      var x, y := Col(p, t.width), Row(p, t.width);
      Queue(t, MoveSeq(Minus(t.y, y), Minus(y, t.y), Minus(t.x, x), Minus(x, t.x))).(x := x, y := y)
  }

  function AdvanceCursor(t: Term, places: nat): (r: Term)
    requires t.width > 0
    ensures r.InWidth()
    ensures OutputOnly(t, r)
  {
    var x, y := Col(t.x + places, t.width), t.y + Row(t.x + places, t.width);
    Queue(t, if places > 0 && x == 0 then [CR, LF] else [])
    .(x := x, y := y, maxLine := if y > t.maxLine then y else t.maxLine)
  }

  function WriteLine(t: Term, line: seq<Rune>): (r: Term)
    requires t.InWidth()
    ensures r.InWidth()
    ensures OutputOnly(t, r)
    decreases |line|
  {
    if line == [] then t
    else
      var todo := if |line| > t.width - t.x then t.width - t.x else |line|;
      WriteLine(AdvanceCursor(Queue(t, line[..todo]), VisualLength(line[..todo])), line[todo..])
  }

  function Spaces(n: nat): (rs: seq<Rune>)
    ensures |rs| == n && forall i :: 0 <= i < n ==> rs[i] == SPACE
  {
    seq(n, _ => SPACE)
  }

  /** n times writeLine(space) */
  function WriteSpaces(t: Term, n: nat): (r: Term)
    requires t.InWidth()
    ensures r.InWidth()
    ensures OutputOnly(t, r)
    decreases n
  {
    if n == 0 then t else WriteSpaces(WriteLine(t, [SPACE]), n - 1)
  }

  /** n times: queue a space, advance by one. */
  function BlankOut(t: Term, n: nat): (r: Term)
    requires t.InWidth()
    ensures r.InWidth()
    ensures OutputOnly(t, r)
    decreases n
  {
    if n == 0 then t else BlankOut(AdvanceCursor(Queue(t, [SPACE]), 1), n - 1)
  }

  // ---- Edits ----

  function SetLine(t: Term, line: seq<Rune>, pos: nat): (r: Term)
    requires t.InWidth() && pos <= |line|
    ensures r.InWidth()
    ensures SameContext(t, r)
  {
    var u :=
      if t.echo then
        MoveCursorToPos(WriteSpaces(WriteLine(MoveCursorToPos(t, 0), line), Minus(|t.Line()|, |line|)), pos)
      else t;
    u.(before := line[..pos], after := line[pos..])
  }

  function Erase(t: Term, count: nat): (r: Term)
    requires t.InWidth()
    ensures r.InWidth()
    ensures SameContext(t, r)
  {
    if count == 0 then t
    else
      var n := if t.Pos() < count then t.Pos() else count;
      var pos := t.Pos() - n;
      var u := MoveCursorToPos(t.(before := t.before[..pos]), pos);
      if !u.echo then u
      else MoveCursorToPos(AdvanceCursor(Queue(WriteLine(u, u.after), Spaces(n)), n), pos)
  }

  function AddKey(t: Term, key: Rune): (r: Term)
    requires t.InWidth()
    ensures r.InWidth()
    ensures SameContext(t, r)
  {
    var u := if t.echo then WriteLine(t, [key] + t.after) else t;
    MoveCursorToPos(u.(before := t.before + [key]), t.Pos() + 1)
  }

  /** Both loops of countToLeftWord; index 0 is never inspected. */
  function SkipSpacesLeft(line: seq<Rune>, pos: nat): (p: nat)
    requires pos == 0 || pos < |line|
    ensures p <= pos
    ensures p == 0 || line[p] != SPACE
  {
    if pos > 0 && line[pos] == SPACE then SkipSpacesLeft(line, pos - 1) else pos
  }

  function SkipWordLeft(line: seq<Rune>, pos: nat): (p: nat)
    requires pos == 0 || pos < |line|
    ensures p <= pos + 1
  {
    if pos == 0 then 0
    else if line[pos] == SPACE then pos + 1
    else SkipWordLeft(line, pos - 1)
  }

  function WordLeft(before: seq<Rune>): (n: nat)
    ensures n <= |before|
    ensures before != [] ==> n >= 1
  {
    if before == [] then 0
    else
      var p := SkipSpacesLeft(before, |before| - 1);
      WordLeftBound(before, p);
      |before| - SkipWordLeft(before, p)
  }

  lemma WordLeftBound(line: seq<Rune>, p: nat)
    requires p < |line| && (p == 0 || line[p] != SPACE)
    ensures SkipWordLeft(line, p) <= p
  {
    if p > 0 {
      assert SkipWordLeft(line, p) == SkipWordLeft(line, p - 1);
    }
  }

  function SkipRight(line: seq<Rune>, pos: nat, spaces: bool): (p: nat)
    requires pos <= |line|
    ensures pos <= p <= |line|
    ensures forall i :: pos <= i < p ==> (line[i] == SPACE) == spaces
    ensures p < |line| ==> (line[p] == SPACE) != spaces
    decreases |line| - pos
  {
    if pos < |line| && (line[pos] == SPACE) == spaces then SkipRight(line, pos + 1, spaces) else pos
  }

  function WordRight(after: seq<Rune>): (n: nat)
    ensures n <= |after|
  {
    SkipRight(after, SkipRight(after, 0, false), true)
  }

  /** The cursor moved inside the line. */
  function MoveTo(t: Term, pos: nat): (r: Term)
    requires t.InWidth() && pos <= |t.Line()|
    ensures r.InWidth()
    ensures SameContext(t, r)
  {
    MoveCursorToPos(t.(before := t.Line()[..pos], after := t.Line()[pos..]), pos)
  }

  /** The line is given up: both keys that end it leave an empty line at the left edge of a new row. */
  function EndLine(t: Term): (r: Term)
    requires t.InWidth()
    ensures r.InWidth()
    ensures SameContext(t, r)
  {
    Queue(MoveCursorToPos(t, |t.Line()|), [CR, LF]).(before := [], after := [], x := 0, y := 0, maxLine := 0)
  }

  /** NthPreviousEntry on the list of everything ever added. */
  function NthPrevious(history: seq<seq<byte>>, n: nat): Option<seq<byte>> {
    if n < HISTORY_SIZE && n < |history| then Some(history[|history| - 1 - n]) else None
  }

  function Recall(t: Term, entry: seq<byte>): (r: Term)
    requires t.InWidth()
    ensures r.InWidth()
    ensures SameContext(t, r)
  {
    SetLine(t, Decode(entry), |Decode(entry)|)
  }

  function HistoryUp(t: Term): (r: Term)
    requires t.InWidth() && t.histIndex >= -1
    ensures r.InWidth() && r.histIndex >= -1 && r.paste == t.paste && r.history == t.history && r.echo == t.echo
  {
    match NthPrevious(t.history, t.histIndex + 1)
    case None => t
    case Some(entry) =>
      var pending := if t.histIndex == -1 then Encode(t.Line()) else t.histPending;
      Recall(t.(histPending := pending, histIndex := t.histIndex + 1), entry)
  }

  function HistoryDown(t: Term): (r: Term)
    requires t.InWidth() && t.histIndex >= -1
    ensures r.InWidth() && r.histIndex >= -1 && r.paste == t.paste && r.history == t.history && r.echo == t.echo
  {
    if t.histIndex == -1 then t
    else if t.histIndex == 0 then Recall(t, t.histPending).(histIndex := -1)
    else
      match NthPrevious(t.history, t.histIndex - 1)
      case None => t
      case Some(entry) => Recall(t.(histIndex := t.histIndex - 1), entry)
  }

  const CLEAR_AND_HOME: seq<Rune> := [ESC, BRACKET, '2' as int, 'J' as int, ESC, BRACKET, 'H' as int]

  function ClearScreen(t: Term): (r: Term)
    requires t.InWidth()
    ensures r.InWidth()
    ensures SameContext(t, r)
  {
    var u := Queue(Queue(t, CLEAR_AND_HOME), t.prompt).(x := 0, y := 0);
    SetLine(AdvanceCursor(u, VisualLength(t.prompt)), t.Line(), t.Pos())
  }

  predicate IsPrintable(key: Rune) {
    key >= 32 && !(0xD800 <= key <= 0xDBFF)
  }

  /** The default case of handleKey: completion first, then insertion of a printable key. */
  function TypeKey(t: Term, key: Rune): (r: Term)
    requires t.InWidth()
    ensures r.InWidth()
    ensures SameContext(t, r)
  {
    var prefix, suffix := Encode(t.before), Encode(t.after);
    match t.complete(prefix + suffix, |prefix|, key)
    case Some((newLine, newPos)) => SetLine(t, Decode(newLine), |Decode(newLine[..newPos])|)
    case None =>
      if !IsPrintable(key) || |t.Line()| == MAX_LINE_LENGTH then t else AddKey(t, key)
  }

  /** handleKey: the new state, and the line when the key ended one. */
  function HandleKey(t: Term, key: Rune): (r: (Term, Option<seq<byte>>))
    requires t.InWidth() && t.histIndex >= -1
    ensures r.0.InWidth() && r.0.histIndex >= -1
    ensures r.0.history == t.history && r.0.echo == t.echo
  {
    if t.paste && key != KEY_ENTER then (AddKey(t, key), None)
    else if key == KEY_BACKSPACE then (if t.Pos() == 0 then t else Erase(t, 1), None)
    else if key == KEY_ALT_LEFT then (MoveTo(t, t.Pos() - WordLeft(t.before)), None)
    else if key == KEY_ALT_RIGHT then (MoveTo(t, t.Pos() + WordRight(t.after)), None)
    else if key == KEY_LEFT then (if t.Pos() == 0 then t else MoveTo(t, t.Pos() - 1), None)
    else if key == KEY_RIGHT then (if t.after == [] then t else MoveTo(t, t.Pos() + 1), None)
    else if key == KEY_HOME then (if t.Pos() == 0 then t else MoveTo(t, 0), None)
    else if key == KEY_END then (if t.after == [] then t else MoveTo(t, |t.Line()|), None)
    else if key == KEY_UP then (HistoryUp(t), None)
    else if key == KEY_DOWN then (HistoryDown(t), None)
    else if key == KEY_CTRL_C then (EndLine(t), Some([]))
    else if key == KEY_ENTER then (EndLine(t), Some(Encode(t.Line())))
    else if key == KEY_DELETE_WORD then (Erase(t, WordLeft(t.before)), None)
    else if key == KEY_DELETE_LINE then
      (MoveCursorToPos(BlankOut(t, |t.after|).(after := []), t.Pos()), None)
    else if key == KEY_CTRL_D then
      (if t.after == [] then t
       else Erase(t.(before := t.before + [t.after[0]], after := t.after[1..]), 1), None)
    else if key == KEY_CTRL_U then (Erase(t, t.Pos()), None)
    else if key == KEY_CLEAR_SCREEN then (ClearScreen(t), None)
    else (TypeKey(t, key), None)
  }

  /** Whether a paste is open after a key: its brackets decide. */
  function ModeAfter(open: bool, key: Rune): bool {
    if key == KEY_PASTE_START then true else if key == KEY_PASTE_END then false else open
  }

  // ---- Prompting and redrawing ----

  /** readLine prints the prompt when nothing is on the current row. */
  function ShowPrompt(t: Term): (r: Term)
    requires t.InWidth()
    ensures r.InWidth()
    ensures OutputOnly(t, r)
  {
    if t.x == 0 && t.y == 0 then WriteLine(t, t.prompt) else t
  }

  /** readLine records a finished line unless echo is off. */
  function Record(t: Term, line: seq<byte>): Term {
    if t.echo then t.(histIndex := -1, history := t.history + [line]) else t
  }

  const ERASE_RIGHT: seq<Rune> := [ESC, BRACKET, 'K' as int]

  /** Write, around its raw bytes: what it queues to clear the prompt and line away ... */
  function ClearUp(t: Term): (r: Term)
    ensures r.width == t.width && r.x == t.x && r.y == 0 && r.maxLine == t.maxLine
    ensures OutputOnly(t, r)
    decreases t.y
  {
    if t.y == 0 then t
    else ClearUp(Queue(t, Hop(1, 'A' as int) + ERASE_RIGHT).(y := t.y - 1))
  }

  function HideLine(t: Term): (r: Term)
    ensures r.width == t.width && r.x == 0 && r.y == 0 && r.maxLine == t.maxLine
    ensures OutputOnly(t, r)
  {
    ClearUp(Queue(t, Hop(t.x, 'D' as int) + ERASE_RIGHT).(x := 0))
  }

  /** ... and to draw them again below the raw bytes. */
  function ShowLine(t: Term): (r: Term)
    requires t.InWidth()
    ensures r.InWidth()
    ensures OutputOnly(t, r)
  {
    var u := WriteLine(t, t.prompt);
    MoveCursorToPos(if t.echo then WriteLine(u, t.Line()) else u, t.Pos())
  }

  /** Write as a whole; `out` restarts at the raw bytes. */
  function AfterWrite(t: Term): (r: Term)
    requires t.InWidth()
    ensures r.InWidth()
    ensures OutputOnly(t, r)
  {
    if t.x == 0 && t.y == 0 then t.(out := []) else ShowLine(HideLine(t).(out := [], x := 0, y := 0))
  }

  function ClearDown(t: Term, rows: nat): (r: Term)
    ensures r.width == t.width
    ensures OutputOnly(t, r)
    decreases Minus(rows, t.y)
  {
    if t.y >= rows then t
    else ClearDown(Queue(t, Hop(1, 'B' as int) + ERASE_RIGHT).(y := t.y + 1), rows)
  }

  /** clearAndRepaintLinePlusNPrevious: the old rows blanked from the first one down ... */
  function EraseRows(t: Term, rows: nat): (r: Term)
    ensures r.x == 0 && r.y == 0
    ensures OutputOnly(t, r)
  {
    var u := Queue(t, MoveSeq(t.y, 0, t.x, 0) + ERASE_RIGHT).(x := 0, y := 0);
    var v := ClearDown(u, rows);
    Queue(v, Hop(v.y, 'A' as int)).(x := 0, y := 0)
  }

  /** ... and prompt and line drawn again. */
  function Redraw(t: Term): (r: Term)
    requires t.width > 0
    ensures r.InWidth()
    ensures OutputOnly(t, r)
  {
    var u := AdvanceCursor(Queue(t, t.prompt), VisualLength(t.prompt));
    MoveCursorToPos(WriteLine(u, t.Line()), t.Pos())
  }

  function Repaint(t: Term, rows: nat): (r: Term)
    requires t.width > 0
    ensures r.InWidth()
    ensures OutputOnly(t, r)
  {
    Redraw(EraseRows(t, rows))
  }

  function Resize(t: Term, width: nat): (r: Term)
    requires t.InWidth()
    ensures r.InWidth()
    ensures OutputOnly(t.(width := r.width), r)
  {
    var w := if width == 0 then 1 else width;
    var u := t.(width := w);
    if w == t.width then t
    else if t.Line() == [] && t.x == 0 && t.y == 0 then u
    else if w < t.width then
      Repaint(u.(x := if t.x >= w then w - 1 else t.x, y := t.y * 2), t.maxLine * 2)
    else Repaint(u, t.maxLine)
  }
}
