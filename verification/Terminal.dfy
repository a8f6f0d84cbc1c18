/**
 The terminal in the source's own form: a rune array with spare capacity, fields updated in place and
 loops. Every method is proved equal to its counterpart on values in LineEditor.dfy and LineReader.dfy.
 */
module Terminal {
  import opened Options
  import opened Utf8
  import opened Wrapping
  import opened Screen
  import opened LineEditor
  import opened KeyDecoder
  import opened LineReader
  import opened History

  /** The cursor is moved without looking at the line. */
  lemma MoveIgnoresLine(t: Term, b: seq<Rune>, a: seq<Rune>, p: nat)
    requires t.width > 0
    ensures MoveCursorToPos(t.(before := b, after := a), p) == MoveCursorToPos(t, p).(before := b, after := a)
  {
  }

  /** How a Write of the connection goes: it takes all bytes, or fails having taken at most `count` of them. */
  datatype Verdict = Takes | Fails(count: nat)

  class Terminal {
    var prompt: seq<Rune>
    var complete: Completer
    var line: array<Rune>    // the backing array, its length being the capacity
    var length: nat          // len(t.line)
    var pos: nat
    var echo: bool
    var pasteActive: bool
    var cursorX: nat
    var cursorY: nat
    var maxLine: nat
    var termWidth: nat
    var termHeight: int
    var outBuf: seq<byte>
    var inBuf: array<byte>
    var remainder: nat       // t.remainder is inBuf[..remainder]
    const history: StRingBuffer
    var historyIndex: int
    var historyPending: seq<byte>

    // The connection: what it took, how its next Writes go (all well once there are no more verdicts), and
    // the reads it will still deliver.
    var written: seq<byte>
    var verdicts: seq<Verdict>
    var input: seq<seq<byte>>

    ghost var out: seq<Rune>   // runes queued since the last raw write
    ghost var base: seq<byte>  // bytes sent up to then
    ghost var torn: bool       // a Write failed since then

    ghost predicate Valid()
      reads this, history, history.Repr
    {
      && pos <= length <= line.Length
      && cursorX < termWidth
      && historyIndex >= -1
      && inBuf.Length == IN_BUF && remainder <= IN_BUF
      && history.Valid()
      && this !in history.Repr && line !in history.Repr && inBuf !in history.Repr
      && line as object != inBuf
      && Accounted()
    }

    /** Unless a Write failed, every byte sent or waiting to be sent is accounted for by the runes queued. */
    ghost predicate Accounted()
      reads this`written, this`outBuf, this`base, this`out, this`torn
    {
      !torn ==> written + outBuf == base + Encode(out)
    }

    /** Nothing waits to be sent, and unless a Write failed all that was queued has gone out. */
    ghost predicate Flushed()
      reads this`written, this`outBuf, this`base, this`out, this`torn
    {
      outBuf == [] && (!torn ==> written == base + Encode(out))
    }

    /** No Write will fail. */
    predicate Reliable()
      reads this`verdicts
    {
      forall i :: 0 <= i < |verdicts| ==> verdicts[i] == Takes
    }

    /** The state as a value of the line editor. */
    ghost function View(): Term
      requires pos <= length <= line.Length
      reads this, line, history
    {
      Term(prompt, complete, line[..pos], line[pos..length], echo, pasteActive,
           cursorX, cursorY, maxLine, termWidth, out, history.added, historyIndex, historyPending)
    }

    constructor (p: seq<Rune>, callback: Completer, reads_: seq<seq<byte>>, writes_: seq<Verdict>)
      ensures Valid() && fresh(line) && fresh(inBuf) && fresh(history) && fresh(history.Repr)
      ensures View() == Term(p, callback, [], [], true, false, 0, 0, 0, 80, [], [], -1, [])
      ensures remainder == 0 && input == reads_ && verdicts == writes_
      ensures written == [] && outBuf == [] && base == [] && !torn
    {
      prompt, complete := p, callback;
      line := new Rune[0];
      length, pos := 0, 0;
      echo, pasteActive := true, false;
      cursorX, cursorY, maxLine := 0, 0, 0;
      termWidth, termHeight := 80, 24;
      outBuf := [];
      inBuf := new byte[IN_BUF];
      remainder := 0;
      history := new StRingBuffer();
      historyIndex, historyPending := -1, [];
      written, verdicts, input := [], writes_, reads_;
      out, base, torn := [], [], false;
    }

    // ---- Output ----

    method QueueRunes(data: seq<Rune>)
      requires Valid()
      modifies this`outBuf, this`out
      ensures Valid() && View() == Queue(old(View()), data)
    {
      hide Encode;
      EncodeAppend(out, data);
      assert written + (outBuf + Encode(data)) == (written + outBuf) + Encode(data);
      assert base + (Encode(out) + Encode(data)) == (base + Encode(out)) + Encode(data);
      outBuf := outBuf + Encode(data);
      out := out + data;
    }

    /** visualLength */
    static method CountGlyphs(runes: seq<Rune>) returns (count: nat)
      ensures count == VisualLength(runes)
    {
      var inEscapeSeq := false;
      count := 0;
      for i := 0 to |runes|
        invariant count + VisualFrom(runes[i..], inEscapeSeq) == VisualLength(runes)
      {
        var r := runes[i];
        assert runes[i..][1..] == runes[i + 1..];
        if inEscapeSeq {
          if 'a' as int <= r <= 'z' as int || 'A' as int <= r <= 'Z' as int {
            inEscapeSeq := false;
          }
        } else if r == ESC {
          inEscapeSeq := true;
        } else {
          count := count + 1;
        }
      }
    }

    /** One direction of move(). */
    static method HopRunes(n: nat, final: Rune) returns (m: seq<Rune>)
      ensures m == Hop(n, final)
    {
      m := [];
      if n == 1 {
        m := m + [ESC, BRACKET, final];
      } else if n > 1 {
        m := m + [ESC, BRACKET];
        m := m + Itoa(n);
        m := m + [final];
      }
    }

    method Move(up: nat, down: nat, left: nat, right: nat)
      requires Valid()
      modifies this`outBuf, this`out
      ensures Valid() && View() == Queue(old(View()), MoveSeq(up, down, left, right))
    {
      var a := HopRunes(up, 'A' as int);
      var b := HopRunes(down, 'B' as int);
      var c := HopRunes(right, 'C' as int);
      var d := HopRunes(left, 'D' as int);
      QueueRunes(a + b + c + d);
    }

    static method DivMod(cell: nat, width: nat) returns (q: nat, r: nat)
      requires width > 0
      ensures q == Row(cell, width) && r == Col(cell, width)
    {
      RowColIsDivMod(cell, width);
      q, r := cell / width, cell % width;
    }

    /** How far to go back or forward. */
    static method Apart(from: nat, to: nat) returns (back: nat, forth: nat)
      ensures back == Minus(from, to) && forth == Minus(to, from)
    {
      back, forth := 0, 0;
      if to < from {
        back := from - to;
      }
      if to > from {
        forth := to - from;
      }
    }

    /** moveCursorToPos, with Go's division and remainder. */
    method MoveToPosition(p: nat)
      requires Valid()
      modifies this`outBuf, this`out, this`cursorX, this`cursorY
      ensures Valid() && View() == MoveCursorToPos(old(View()), p)
    {
      hide Accounted, Proper, StRingBuffer.Valid, Row, Col, MoveSeq, VisualFrom, VisualLength, Encode;
      if !echo {
        return;
      }
      var glyphs := CountGlyphs(prompt);
      var cell := glyphs + p;
      var y, x := DivMod(cell, termWidth);
      var up, down := Apart(cursorY, y);
      var left, right := Apart(cursorX, x);
      cursorX := x;
      cursorY := y;
      Move(up, down, left, right);
    }

    method Advance(places: nat)
      requires Valid()
      modifies this`outBuf, this`out, this`cursorX, this`cursorY, this`maxLine
      ensures Valid() && View() == AdvanceCursor(old(View()), places)
    {
      hide Accounted, Proper, StRingBuffer.Valid, Row, Col, Encode;
      var rows, x := DivMod(cursorX + places, termWidth);
      cursorY := cursorY + rows;
      if cursorY > maxLine {
        maxLine := cursorY;
      }
      cursorX := x;
      assert out + [] == out;
      if places > 0 && cursorX == 0 {
        QueueRunes([CR, LF]);
      }
    }

    method WriteRunes(runes: seq<Rune>)
      requires Valid()
      modifies this`outBuf, this`out, this`cursorX, this`cursorY, this`maxLine
      ensures Valid() && View() == WriteLine(old(View()), runes)
    {
      hide Accounted, Proper, StRingBuffer.Valid, Row, Col, VisualFrom, Encode, AdvanceCursor;
      var rest := runes;
      while |rest| != 0
        invariant Valid()
        invariant pos == old(pos) && length == old(length) && line == old(line)
        invariant WriteLine(View(), rest) == WriteLine(old(View()), runes)
        decreases |rest|
      {
        var remainingOnLine := termWidth - cursorX;
        var todo := |rest|;
        if todo > remainingOnLine {
          todo := remainingOnLine;
        }
        QueueRunes(rest[..todo]);
        var glyphs := CountGlyphs(rest[..todo]);
        Advance(glyphs);
        rest := rest[todo..];
      }
    }

    // ---- The line buffer ----

    /** []rune(string) */
    static method FromRunes(rs: seq<Rune>) returns (a: array<Rune>)
      ensures fresh(a) && a.Length == |rs| && a[..] == rs
    {
      a := new Rune[|rs|](i requires 0 <= i < |rs| => rs[i]);
    }

    /** The loop of setLine that blanks out what the old line had in excess. */
    method WriteBlanks(from: nat, to: nat)
      requires Valid()
      modifies this`outBuf, this`out, this`cursorX, this`cursorY, this`maxLine
      ensures Valid() && View() == WriteSpaces(old(View()), Minus(to, from))
    {
      hide Accounted, Proper, StRingBuffer.Valid, Row, Col, VisualFrom, Encode, AdvanceCursor, WriteLine;
      var i := from;
      while i < to
        invariant from <= i && (i <= to || i == from)
        invariant Valid()
        invariant pos == old(pos) && length == old(length) && line == old(line)
        invariant WriteSpaces(View(), Minus(to, i)) == WriteSpaces(old(View()), Minus(to, from))
      {
        WriteRunes([SPACE]);
        i := i + 1;
      }
    }

    /** setLine; `newLine` may be the line itself. */
    method ReplaceLine(newLine: array<Rune>, newLength: nat, newPos: nat)
      requires Valid() && newPos <= newLength <= newLine.Length
      requires newLine !in history.Repr && newLine as object != inBuf
      modifies this`outBuf, this`out, this`cursorX, this`cursorY, this`maxLine, this`line, this`length, this`pos
      ensures Valid() && View() == SetLine(old(View()), newLine[..newLength], newPos)
      ensures line == newLine
    {
      hide Accounted, Proper, StRingBuffer.Valid, Row, Col, VisualFrom, Encode, WriteLine, WriteSpaces, MoveCursorToPos;
      ghost var t := View();
      assert |t.Line()| == length;
      if echo {
        MoveToPosition(0);
        WriteRunes(newLine[..newLength]);
        WriteBlanks(newLength, length);
        MoveToPosition(newPos);
      }
      line := newLine;
      length := newLength;
      pos := newPos;
      assert line[..length][..pos] == line[..pos] && line[..length][pos..] == line[pos..length];
    }

    method QueueSpaces(n: nat)
      requires Valid()
      modifies this`outBuf, this`out
      ensures Valid() && View() == Queue(old(View()), Spaces(n))
    {
      hide Accounted, Proper, StRingBuffer.Valid;
      ghost var v := View();
      assert v.out + Spaces(0) == v.out;
      for i := 0 to n
        invariant Valid() && View() == Queue(v, Spaces(i))
      {
        assert Spaces(i) + [SPACE] == Spaces(i + 1);
        assert (v.out + Spaces(i)) + [SPACE] == v.out + (Spaces(i) + [SPACE]);
        QueueRunes([SPACE]);
      }
    }

    /** copy(t.line[t.pos:], t.line[n+t.pos:]), whose ranges overlap, and the shorter slice. */
    method CloseGap(n: nat)
      requires Valid() && pos + n <= length
      modifies this`length, line
      ensures Valid() && View() == GapClosed(old(View()), n)
    {
      hide Accounted, Proper, StRingBuffer.Valid;
      CopyDown(line, pos, pos + n, length);
      length := length - n;
    }

    /** copy(a[to:hi], a[from:hi]) for to <= from: the ranges overlap. */
    static method CopyDown(a: array<Rune>, to: nat, from: nat, hi: nat)
      requires to <= from <= hi <= a.Length
      modifies a
      ensures a[..to] == old(a[..to])
      ensures a[to..hi - (from - to)] == old(a[from..hi])
    {
      ghost var was := a[..];
      var n := from - to;
      forall i | to <= i < hi - n {
        a[i] := a[i + n];
      }
      assert forall i :: to <= i < hi - n ==> a[i] == was[i + n];
      assert a[to..hi - n] == was[from..hi];
    }

    /** copy(a[lo+1:hi+1], a[lo:hi]): the ranges overlap. */
    static method CopyUp(a: array<Rune>, lo: nat, hi: nat)
      requires lo <= hi < a.Length
      modifies a
      ensures a[..lo] == old(a[..lo])
      ensures a[lo + 1..hi + 1] == old(a[lo..hi])
    {
      ghost var was := a[..];
      forall i | lo < i <= hi {
        a[i] := a[i - 1];
      }
      assert forall i :: lo < i <= hi ==> a[i] == was[i - 1];
      assert a[lo + 1..hi + 1] == was[lo..hi];
    }

    /** With echo on: the tail drawn again from the cursor, with blanks over the cells it no longer fills. */
    method RedrawTail(n: nat)
      requires Valid()
      modifies this`outBuf, this`out, this`cursorX, this`cursorY, this`maxLine
      ensures Valid()
      ensures View() == TailRedrawn(old(View()), n)
    {
      hide Accounted, Proper, StRingBuffer.Valid, Row, Col, VisualFrom, Encode, AdvanceCursor, WriteLine, MoveCursorToPos, Spaces;
      if echo {
        WriteRunes(line[pos..length]);
        QueueSpaces(n);
        Advance(n);
        MoveToPosition(pos);
      }
    }

    method EraseNPreviousChars(count: nat)
      requires Valid()
      modifies this`outBuf, this`out, this`cursorX, this`cursorY, this`maxLine, this`length, this`pos, line
      ensures Valid() && View() == Erase(old(View()), count)
    {
      hide Accounted, Proper, StRingBuffer.Valid, Row, Col, VisualFrom, Encode, AdvanceCursor, WriteLine, MoveCursorToPos, Spaces, Erase, SteppedBack, GapClosed, TailRedrawn;
      if count == 0 {
        EraseNothing(View());
        return;
      }
      var n := count;
      if pos < n {
        n := pos;
      }
      ghost var t := View();
      assert n <= pos;
      StepBack(n);
      CloseGap(n);
      RedrawTail(n);
      EraseByParts(t, count, n);
    }

    /** The position moved back in the line still undivided there. */
    method StepBack(n: nat)
      requires Valid() && n <= pos
      modifies this`outBuf, this`out, this`cursorX, this`cursorY, this`pos
      ensures Valid()
      ensures View() == SteppedBack(old(View()), n)
    {
      hide Accounted, Proper, StRingBuffer.Valid, Row, Col, VisualFrom, Encode, MoveCursorToPos;
      ghost var u := View();
      pos := pos - n;
      assert line[..pos] == u.before[..pos] && line[pos..length] == u.before[pos..] + u.after;
      MoveToPosition(pos);
    }

    method CountToLeftWord() returns (count: nat)
      requires Valid()
      ensures count == WordLeft(line[..pos])
    {
      if pos == 0 {
        return 0;
      }
      ghost var before := line[..pos];
      var p := pos - 1;
      while p > 0
        invariant 0 <= p < pos
        invariant SkipSpacesLeft(before, p) == SkipSpacesLeft(before, pos - 1)
      {
        if line[p] != SPACE {
          break;
        }
        p := p - 1;
      }
      ghost var q := p;
      WordLeftBound(before, q);
      while p > 0
        invariant 0 <= p <= q
        invariant SkipWordLeft(before, p) == SkipWordLeft(before, q)
      {
        if line[p] == SPACE {
          p := p + 1;
          break;
        }
        p := p - 1;
      }
      count := pos - p;
    }

    method CountToRightWord() returns (count: nat)
      requires Valid()
      ensures count == WordRight(line[pos..length])
    {
      ghost var after := line[pos..length];
      var p := pos;
      while p < length
        invariant pos <= p <= length
        invariant SkipRight(after, p - pos, false) == SkipRight(after, 0, false)
      {
        if line[p] == SPACE {
          break;
        }
        p := p + 1;
      }
      ghost var q := p - pos;
      while p < length
        invariant pos <= p <= length
        invariant SkipRight(after, p - pos, true) == SkipRight(after, q, true)
      {
        if line[p] != SPACE {
          break;
        }
        p := p + 1;
      }
      count := p - pos;
    }

    method Grow()
      requires Valid()
      modifies this`line
      ensures Valid() && View() == old(View()) && fresh(line) && line.Length > length
      ensures line[..pos] == old(line[..pos]) && line[pos..length] == old(line[pos..length])
    {
      hide Accounted, Proper, StRingBuffer.Valid;
      var newLine := Copied(line, length, 2 * (1 + length));
      assert newLine[..pos] == newLine[..length][..pos] == line[..length][..pos] == line[..pos];
      assert newLine[pos..length] == newLine[..length][pos..] == line[..length][pos..] == line[pos..length];
      line := newLine;
    }

    /** A new array of the given capacity with the first n runes of the old one. */
    static method Copied(a: array<Rune>, n: nat, capacity: nat) returns (b: array<Rune>)
      requires n <= a.Length && n <= capacity
      ensures fresh(b) && b.Length == capacity && b[..n] == a[..n]
    {
      b := new Rune[capacity];
      var i := 0;
      while i < n
        invariant i <= n && b[..i] == a[..i]
      {
        b[i] := a[i];
        i := i + 1;
      }
    }

    /** The tail moved up by one in the slice one longer, and the key put into the gap. */
    method OpenGap(key: Rune)
      requires Valid() && length < line.Length
      modifies this`length, line
      ensures Valid() && View() == GapOpened(old(View()), key)
    {
      hide Accounted, Proper, StRingBuffer.Valid;
      ghost var before, after := line[..pos], line[pos..length];
      CopyUp(line, pos, length);
      length := length + 1;
      line[pos] := key;
      assert line[..pos] == before;
      assert line[pos + 1..length] == after;
      assert line[pos..length] == [key] + after;
    }

    method DrawGap()
      requires Valid()
      modifies this`outBuf, this`out, this`cursorX, this`cursorY, this`maxLine
      ensures Valid() && View() == GapDrawn(old(View()))
    {
      hide Accounted, Proper, StRingBuffer.Valid, Row, Col, VisualFrom, Encode, AdvanceCursor, WriteLine;
      if echo {
        WriteRunes(line[pos..length]);
      }
    }

    method PassGap()
      requires Valid() && pos < length
      modifies this`outBuf, this`out, this`cursorX, this`cursorY, this`pos
      ensures Valid() && View() == GapPassed(old(View()))
    {
      hide Accounted, Proper, StRingBuffer.Valid, Row, Col, VisualFrom, Encode, MoveCursorToPos;
      ghost var u := View();
      pos := pos + 1;
      assert line[..pos] == u.before + [u.after[0]] && line[pos..length] == u.after[1..];
      MoveToPosition(pos);
    }

    method AddKeyToLine(key: Rune)
      requires Valid()
      modifies this`outBuf, this`out, this`cursorX, this`cursorY, this`maxLine, this`line, this`length, this`pos, line
      ensures Valid() && View() == AddKey(old(View()), key)
      ensures line == old(line) || fresh(line)
    {
      hide Accounted, Proper, StRingBuffer.Valid, AddKey, GapOpened, GapDrawn, GapPassed;
      ghost var t := View();
      if length == line.Length {
        Grow();
      }
      OpenGap(key);
      DrawGap();
      PassGap();
      AddKeyByParts(t, key);
    }

    // ---- Keys ----

    /** A cursor key: the position changes, the line does not. */
    method MoveInLine(p: nat)
      requires Valid() && p <= length
      modifies this`outBuf, this`out, this`cursorX, this`cursorY, this`pos
      ensures Valid() && View() == MoveTo(old(View()), p)
    {
      hide Accounted, Proper, StRingBuffer.Valid, MoveCursorToPos;
      ghost var t := View();
      assert t.Line() == line[..length];
      pos := p;
      assert line[..length][..p] == line[..pos] && line[..length][p..] == line[pos..length];
      MoveToPosition(pos);
    }

    method RecallEntry(entry: seq<byte>)
      requires Valid()
      modifies this`outBuf, this`out, this`cursorX, this`cursorY, this`maxLine, this`line, this`length, this`pos
      ensures Valid() && View() == Recall(old(View()), entry)
      ensures fresh(line)
    {
      hide Accounted, Proper, StRingBuffer.Valid, SetLine, Decode;
      var runes := FromRunes(Decode(entry));
      ReplaceLine(runes, runes.Length, runes.Length);
      assert runes[..runes.Length] == runes[..];
    }

    method KeyUp()
      requires Valid()
      modifies this`outBuf, this`out, this`cursorX, this`cursorY, this`maxLine, this`line, this`length, this`pos,
               this`historyIndex, this`historyPending
      ensures Valid() && View() == HistoryUp(old(View()))
      ensures line == old(line) || fresh(line)
    {
      hide Accounted, Proper, StRingBuffer.Valid, Recall, Encode, Decode;
      var entry, ok := history.NthPreviousEntry(historyIndex + 1);
      if !ok {
        return;
      }
      if historyIndex == -1 {
        assert line[..length] == line[..pos] + line[pos..length];
        historyPending := Encode(line[..length]);
      }
      historyIndex := historyIndex + 1;
      RecallEntry(entry);
    }

    method KeyDown()
      requires Valid()
      modifies this`outBuf, this`out, this`cursorX, this`cursorY, this`maxLine, this`line, this`length, this`pos,
               this`historyIndex
      ensures Valid() && View() == HistoryDown(old(View()))
      ensures line == old(line) || fresh(line)
    {
      hide Accounted, Proper, StRingBuffer.Valid, Recall, Encode, Decode;
      if historyIndex == -1 {
        return;
      } else if historyIndex == 0 {
        RecallEntry(historyPending);
        historyIndex := historyIndex - 1;
      } else {
        var entry, ok := history.NthPreviousEntry(historyIndex - 1);
        if ok {
          historyIndex := historyIndex - 1;
          RecallEntry(entry);
        }
      }
    }

    /** keyEnter keeps the array, keyCtrlC takes a new one. */
    method FinishLine(keepArray: bool)
      requires Valid()
      modifies this`outBuf, this`out, this`cursorX, this`cursorY, this`maxLine, this`line, this`length, this`pos
      ensures Valid() && View() == EndLine(old(View()))
      ensures line == old(line) || fresh(line)
    {
      hide Accounted, Proper, StRingBuffer.Valid, MoveCursorToPos;
      assert |View().Line()| == length;
      MoveToPosition(length);
      QueueRunes([CR, LF]);
      ForgetLine(keepArray);
    }

    method ForgetLine(keepArray: bool)
      requires Valid()
      modifies this`cursorX, this`cursorY, this`maxLine, this`line, this`length, this`pos
      ensures Valid() && View() == old(View()).(before := [], after := [], x := 0, y := 0, maxLine := 0)
      ensures line == old(line) || fresh(line)
    {
      hide Accounted, Proper, StRingBuffer.Valid;
      if !keepArray {
        line := new Rune[0];
      }
      length, pos := 0, 0;
      cursorX, cursorY, maxLine := 0, 0, 0;
      assert line[..pos] == [] && line[pos..length] == [];
    }

    method KeyDeleteLine()
      requires Valid()
      modifies this`outBuf, this`out, this`cursorX, this`cursorY, this`maxLine, this`length
      ensures Valid()
      ensures var t := old(View());
              View() == MoveCursorToPos(BlankOut(t, |t.after|).(after := []), t.Pos())
    {
      hide Accounted, Proper, StRingBuffer.Valid, Row, Col, AdvanceCursor, MoveCursorToPos;
      var i := pos;
      while i < length
        invariant pos <= i <= length
        invariant Valid()
        invariant pos == old(pos) && length == old(length) && line == old(line)
        invariant BlankOut(View(), length - i) == BlankOut(old(View()), length - pos)
      {
        QueueRunes([SPACE]);
        Advance(1);
        i := i + 1;
      }
      length := pos;
      MoveToPosition(pos);
    }

    method KeyDeleteForward()
      requires Valid() && pos < length
      modifies this`outBuf, this`out, this`cursorX, this`cursorY, this`maxLine, this`length, this`pos, line
      ensures Valid()
      ensures var t := old(View());
              View() == Erase(t.(before := t.before + [t.after[0]], after := t.after[1..]), 1)
    {
      hide Accounted, Proper, StRingBuffer.Valid, Erase;
      ghost var t := View();
      pos := pos + 1;
      assert line[..pos] == t.before + [t.after[0]] && line[pos..length] == t.after[1..];
      EraseNPreviousChars(1);
    }

    method KeyClearScreen()
      requires Valid()
      modifies this`outBuf, this`out, this`cursorX, this`cursorY, this`maxLine, this`line, this`length, this`pos
      ensures Valid() && View() == ClearScreen(old(View()))
      ensures line == old(line)
    {
      hide Accounted, Proper, StRingBuffer.Valid, SetLine, AdvanceCursor, VisualLength;
      QueueRunes(CLEAR_AND_HOME);
      QueueRunes(prompt);
      cursorX, cursorY := 0, 0;
      var glyphs := CountGlyphs(prompt);
      Advance(glyphs);
      assert line[..length] == line[..pos] + line[pos..length];
      ReplaceLine(line, length, pos);
    }

    method KeyDefault(key: Rune)
      requires Valid()
      modifies this`outBuf, this`out, this`cursorX, this`cursorY, this`maxLine, this`line, this`length, this`pos, line
      ensures Valid() && View() == TypeKey(old(View()), key)
      ensures line == old(line) || fresh(line)
    {
      hide Accounted, StRingBuffer.Valid, SetLine, AddKey, Encode, Decode;
      ghost var t := View();
      var prefix := Encode(line[..pos]);
      var suffix := Encode(line[pos..length]);
      var completion := complete(prefix + suffix, |prefix|, key);
      if completion.Some? {
        var (newLine, newPos) := completion.value;
        var runes := FromRunes(Decode(newLine));
        assert runes[..runes.Length] == runes[..];
        ReplaceLine(runes, runes.Length, |Decode(newLine[..newPos])|);
        return;
      }
      if !IsPrintable(key) {
        return;
      }
      assert |t.Line()| == length;
      if length == MAX_LINE_LENGTH {
        return;
      }
      AddKeyToLine(key);
    }

    method PressKey(key: Rune) returns (text: seq<byte>, ok: bool)
      requires Valid()
      modifies this`outBuf, this`out, this`cursorX, this`cursorY, this`maxLine, this`line, this`length, this`pos, line,
               this`historyIndex, this`historyPending
      ensures Valid()
      ensures HandleKey(old(View()), key) == (View(), if ok then Some(text) else None)
      ensures line == old(line) || fresh(line)
    {
      hide Accounted, Proper, StRingBuffer.Valid, Erase, MoveTo, AddKey, ClearScreen, TypeKey, BlankOut, HistoryUp, HistoryDown,
           MoveCursorToPos, WordLeft, WordRight, EndLine, Encode;
      ghost var t := View();
      assert |t.Line()| == length;
      text, ok := [], false;
      if pasteActive && key != KEY_ENTER {
        AddKeyToLine(key);
      } else if key == KEY_BACKSPACE {
        if pos == 0 {
          return;
        }
        EraseNPreviousChars(1);
      } else if key == KEY_ALT_LEFT {
        var n := CountToLeftWord();
        MoveInLine(pos - n);
      } else if key == KEY_ALT_RIGHT {
        var n := CountToRightWord();
        MoveInLine(pos + n);
      } else if key == KEY_LEFT {
        if pos == 0 {
          return;
        }
        MoveInLine(pos - 1);
      } else if key == KEY_RIGHT {
        if pos == length {
          return;
        }
        MoveInLine(pos + 1);
      } else if key == KEY_HOME {
        if pos == 0 {
          return;
        }
        MoveInLine(0);
      } else if key == KEY_END {
        if pos == length {
          return;
        }
        MoveInLine(length);
      } else if key == KEY_UP {
        KeyUp();
      } else if key == KEY_DOWN {
        KeyDown();
      } else if key == KEY_CTRL_C {
        FinishLine(false);
        ok := true;
      } else if key == KEY_ENTER {
        assert line[..length] == t.Line();
        text := Encode(line[..length]);
        FinishLine(true);
        ok := true;
      } else if key == KEY_DELETE_WORD {
        var n := CountToLeftWord();
        EraseNPreviousChars(n);
      } else if key == KEY_DELETE_LINE {
        KeyDeleteLine();
      } else if key == KEY_CTRL_D {
        if pos < length {
          KeyDeleteForward();
        }
      } else if key == KEY_CTRL_U {
        EraseNPreviousChars(pos);
      } else if key == KEY_CLEAR_SCREEN {
        KeyClearScreen();
      } else {
        KeyDefault(key);
      }
    }

    // ---- Raw output and resizing ----

    /** t.c.Write(p): how many bytes were taken, and whether there was no error. */
    method Send(p: seq<byte>) returns (n: nat, ok: bool)
      modifies this`written, this`verdicts, this`torn
      ensures n <= |p| && written == old(written) + p[..n]
      ensures ok ==> n == |p|
      ensures torn == (old(torn) || !ok)
      ensures old(Reliable()) ==> ok && Reliable()
    {
      n, ok := |p|, true;
      if |verdicts| > 0 {
        if verdicts[0].Fails? {
          n, ok := if verdicts[0].count < |p| then verdicts[0].count else |p|, false;
        }
        verdicts := verdicts[1..];
      }
      written, torn := written + p[..n], torn || !ok;
    }

    /** t.c.Write(t.outBuf), and the buffer emptied whether or not it failed, as readLine and SetSize do. */
    method Flush() returns (ok: bool)
      requires Valid()
      modifies this`outBuf, this`written, this`verdicts, this`torn
      ensures Valid() && View() == old(View()) && Flushed()
      ensures torn == (old(torn) || !ok)
      ensures old(Reliable()) ==> ok && Reliable()
    {
      hide Encode, Proper, StRingBuffer.Valid, Reliable;
      var n;
      n, ok := Send(outBuf);
      outBuf := [];
    }

    /** t.c.Write(t.outBuf), and the buffer emptied only without an error, as Write does. */
    method FlushOrKeep() returns (ok: bool)
      requires Valid()
      modifies this`outBuf, this`written, this`verdicts, this`torn
      ensures Valid() && View() == old(View())
      ensures outBuf == if ok then [] else old(outBuf)
      ensures !torn ==> written == base + Encode(out)
      ensures torn == (old(torn) || !ok)
      ensures old(Reliable()) ==> ok && Reliable()
    {
      hide Encode, Proper, StRingBuffer.Valid, Reliable;
      var n;
      n, ok := Send(outBuf);
      if ok {
        outBuf := [];
      }
    }

    /** Bytes that pass the editor by: the log of what it queued starts again behind them. */
    method WriteRaw(buf: seq<byte>) returns (n: nat, ok: bool)
      requires Valid()
      modifies this`written, this`verdicts, this`base, this`out, this`torn
      ensures Valid() && View() == old(View()).(out := [])
      ensures Delivered(buf, n, ok, old(written), written) && base == written + outBuf && !torn
      ensures old(Reliable()) ==> ok && Reliable()
    {
      hide Proper, StRingBuffer.Valid, Encode, Delivered, Reliable;
      n, ok := WriteWithCRLF(buf);
      base, out, torn := written + outBuf, [], false;
      EncodeNothing(base);
    }

    /** writeWithCRLF */
    method WriteWithCRLF(buf: seq<byte>) returns (n: nat, ok: bool)
      modifies this`written, this`verdicts, this`torn
      ensures Delivered(buf, n, ok, old(written), written)
      ensures old(Reliable()) ==> ok && Reliable()
    {
      hide WithCrlf, Reliable;
      n, ok := 0, true;
      CrlfNothing(written);
      while n < |buf|
        invariant n <= |buf|
        invariant written == old(written) + WithCrlf(buf[..n])
        invariant old(Reliable()) ==> Reliable()
        decreases |buf| - n
      {
        var rest := buf[n..];
        var i := IndexNewline(rest);
        var nn;
        nn, ok := Send(rest[..i]);
        CrlfText(buf, n, nn);
        n := n + nn;
        if !ok {
          NoPiece(old(written) + WithCrlf(buf[..n]));
          return;
        }
        if i < |rest| {
          nn, ok := Send([CR, LF]);
          if !ok {
            return;
          }
          CrlfNewline(buf, n);
          assert [CR, LF][..nn] == [CR, LF];
          n := n + 1;
        }
      }
      assert buf[..n] == buf;
      NoPiece(old(written) + WithCrlf(buf));
    }

    /** bytes.IndexByte, with the length for "not found". */
    static method IndexNewline(b: seq<byte>) returns (i: nat)
      ensures i <= |b| && LF !in b[..i] && (i < |b| ==> b[i] == LF)
    {
      i := 0;
      while i < |b| && b[i] != LF
        invariant i <= |b| && LF !in b[..i]
      {
        i := i + 1;
      }
    }

    method ClearRowsAbove()
      requires Valid()
      modifies this`outBuf, this`out, this`cursorY
      ensures Valid() && View() == ClearUp(old(View()))
    {
      hide Accounted, Proper, StRingBuffer.Valid, Hop, MoveSeq;
      while cursorY > 0
        invariant Valid()
        invariant pos == old(pos) && length == old(length) && line == old(line)
        invariant ClearUp(View()) == ClearUp(old(View()))
        decreases cursorY
      {
        ghost var u := View();
        Move(1, 0, 0, 0);
        cursorY := cursorY - 1;
        QueueRunes(ERASE_RIGHT);
        UpOnly(u.out);
      }
    }

    method EraseDisplayedLine()
      requires Valid()
      modifies this`outBuf, this`out, this`cursorX, this`cursorY
      ensures Valid() && View() == HideLine(old(View()))
    {
      hide Accounted, Proper, StRingBuffer.Valid, Hop, MoveSeq, ClearUp;
      ghost var t := View();
      Move(0, 0, cursorX, 0);
      cursorX := 0;
      QueueRunes(ERASE_RIGHT);
      LeftOnly(t.out, t.x);
      ClearRowsAbove();
    }

    /**
     Write. Without an error the line is hidden, the bytes go out and the line is shown again. An error leaves the
     editor where it happened: with the line hidden and still in the buffer, with it hidden and `n` bytes out, or
     with everything drawn but not all of it taken.
     */
    method Write(buf: seq<byte>) returns (n: nat, ok: bool)
      requires Valid()
      modifies this`outBuf, this`out, this`cursorX, this`cursorY, this`maxLine, this`written, this`verdicts, this`base, this`torn
      ensures Valid()
      ensures ok ==> View() == AfterWrite(old(View())) && n == |buf|
      ensures ok && !old(torn) ==> !torn
      ensures old(Reliable()) ==> ok && Reliable()
      ensures var t := old(View());
              if t.x == 0 && t.y == 0 then
                View() == t.(out := []) && outBuf == old(outBuf) && Delivered(buf, n, ok, old(written), written)
              else if ok then
                && outBuf == []
                && (!old(torn) ==> written == old(base) + Encode(HideLine(t).out) + WithCrlf(buf) + Encode(out))
              else
                || (View() == HideLine(t) && n == 0 && torn)
                || (View() == HideLine(t).(out := []) && outBuf == []
                    && (!old(torn) ==> Delivered(buf, n, false, old(base) + Encode(HideLine(t).out), written)))
                || (View() == AfterWrite(t) && n == |buf| && torn)
    {
      hide Accounted, Proper, StRingBuffer.Valid, ShowLine, Encode, HideLine, Reliable, WithCrlf, Delivered;
      if cursorX == 0 && cursorY == 0 {
        n, ok := WriteRaw(buf);
        if ok {
          DeliveredAll(buf, n, old(written), written);
        }
        return;
      }
      n := 0;
      ok := HideAndSend();
      if ok {
        ghost var before := written;
        n, ok := WriteRaw(buf);
        if ok {
          DeliveredAll(buf, n, before, written);
          ok := ShowAndSend();
        }
      }
    }

    method HideAndSend() returns (ok: bool)
      requires Valid()
      modifies this`outBuf, this`out, this`cursorX, this`cursorY, this`written, this`verdicts, this`torn
      ensures Valid() && View() == HideLine(old(View())) && (ok ==> outBuf == [])
      ensures !torn ==> written == base + Encode(out)
      ensures torn == (old(torn) || !ok)
      ensures old(Reliable()) ==> ok && Reliable()
    {
      hide Accounted, Proper, StRingBuffer.Valid, Encode, HideLine, Reliable;
      EraseDisplayedLine();
      ok := FlushOrKeep();
    }

    method ShowAndSend() returns (ok: bool)
      requires Valid()
      modifies this`outBuf, this`out, this`cursorX, this`cursorY, this`maxLine, this`written, this`verdicts, this`torn
      ensures Valid() && View() == ShowLine(old(View())) && (ok ==> outBuf == [])
      ensures !torn ==> written == base + Encode(out)
      ensures torn == (old(torn) || !ok)
      ensures old(Reliable()) ==> ok && Reliable()
    {
      hide Accounted, Proper, StRingBuffer.Valid, Encode, ShowLine, Reliable;
      DisplayLine();
      ok := FlushOrKeep();
    }

    method DisplayLine()
      requires Valid()
      modifies this`outBuf, this`out, this`cursorX, this`cursorY, this`maxLine
      ensures Valid() && View() == ShowLine(old(View()))
    {
      hide Accounted, Proper, StRingBuffer.Valid, Row, Col, MoveCursorToPos, WriteLine;
      WriteRunes(prompt);
      if echo {
        assert line[..length] == line[..pos] + line[pos..length];
        WriteRunes(line[..length]);
      }
      MoveToPosition(pos);
    }

    method BlankRows(rows: nat)
      requires Valid()
      modifies this`outBuf, this`out, this`cursorY
      ensures Valid() && View() == ClearDown(old(View()), rows)
    {
      hide Accounted, Proper, StRingBuffer.Valid, Hop, MoveSeq;
      while cursorY < rows
        invariant Valid()
        invariant pos == old(pos) && length == old(length) && line == old(line)
        invariant ClearDown(View(), rows) == ClearDown(old(View()), rows)
      {
        ghost var v := View();
        Move(0, 1, 0, 0);
        cursorY := cursorY + 1;
        QueueRunes(ERASE_RIGHT);
        DownOnly(v.out);
      }
    }

    method EraseOldRows(rows: nat)
      requires Valid()
      modifies this`outBuf, this`out, this`cursorX, this`cursorY
      ensures Valid() && View() == EraseRows(old(View()), rows)
    {
      hide Accounted, Proper, StRingBuffer.Valid, Hop, MoveSeq, ClearDown;
      ghost var t := View();
      Move(cursorY, 0, cursorX, 0);
      cursorX, cursorY := 0, 0;
      QueueRunes(ERASE_RIGHT);
      assert (t.out + MoveSeq(t.y, 0, t.x, 0)) + ERASE_RIGHT == t.out + (MoveSeq(t.y, 0, t.x, 0) + ERASE_RIGHT);
      BlankRows(rows);
      ghost var v := View();
      Move(cursorY, 0, 0, 0);
      cursorX, cursorY := 0, 0;
      UpMany(v.out, v.y);
    }

    method RepaintLine(rows: nat)
      requires Valid()
      modifies this`outBuf, this`out, this`cursorX, this`cursorY, this`maxLine
      ensures Valid() && View() == Repaint(old(View()), rows)
    {
      hide Accounted, Proper, StRingBuffer.Valid, Row, Col, MoveCursorToPos, WriteLine, AdvanceCursor, VisualLength, EraseRows;
      EraseOldRows(rows);
      QueueRunes(prompt);
      var glyphs := CountGlyphs(prompt);
      Advance(glyphs);
      assert line[..length] == line[..pos] + line[pos..length];
      WriteRunes(line[..length]);
      MoveToPosition(pos);
    }

    /** SetSize; what is drawn again is sent at once. */
    method SetSize(width: nat, height: int) returns (ok: bool)
      requires Valid()
      modifies this`outBuf, this`out, this`cursorX, this`cursorY, this`maxLine, this`written, this`verdicts, this`torn,
               this`termWidth, this`termHeight
      ensures Valid() && View() == Resize(old(View()), width) && termHeight == height
      ensures out != old(out) || old(Flushed()) ==> Flushed()
      ensures torn == (old(torn) || !ok)
      ensures old(Reliable()) ==> ok && Reliable()
    {
      hide Accounted, Encode, Flushed, Reliable, Proper, StRingBuffer.Valid, Repaint, EraseRows, Redraw;
      var w := if width == 0 then 1 else width;
      ghost var t := View();
      assert |t.Line()| == length;
      termHeight := height;
      if w == termWidth {
        return true;
      } else if length == 0 && cursorX == 0 && cursorY == 0 {
        termWidth := w;
        return true;
      }
      Rewrap(w);
      ok := Flush();
    }

    /** The prompt and the line drawn again for another width. */
    method Rewrap(w: nat)
      requires Valid() && 0 < w != termWidth
      modifies this`outBuf, this`out, this`cursorX, this`cursorY, this`maxLine, this`termWidth
      ensures Valid()
      ensures var t := old(View());
              View() ==
                if w < t.width then
                  Repaint(t.(width := w, x := if t.x >= w then w - 1 else t.x, y := t.y * 2), t.maxLine * 2)
                else Repaint(t.(width := w), t.maxLine)
    {
      hide Accounted, Proper, StRingBuffer.Valid, Repaint, EraseRows, Redraw;
      if w < termWidth {
        Narrow(w);
        RepaintLine(maxLine * 2);
      } else {
        termWidth := w;
        RepaintLine(maxLine);
      }
    }

    /** Every row of the old width is taken to have wrapped into two. */
    method Narrow(w: nat)
      requires Valid() && 0 < w < termWidth
      modifies this`termWidth, this`cursorX, this`cursorY
      ensures Valid()
      ensures var t := old(View());
              View() == t.(width := w, x := if t.x >= w then w - 1 else t.x, y := t.y * 2)
    {
      hide Accounted, Proper, StRingBuffer.Valid;
      termWidth := w;
      if cursorX >= termWidth {
        cursorX := termWidth - 1;
      }
      cursorY := cursorY * 2;
    }

    // ---- Reading ----

    /** One decoded key. */
    method TakeKey(key: Rune, lineIsPasted: bool) returns (pasted: bool, stop: Stop)
      requires Valid()
      modifies this`outBuf, this`out, this`cursorX, this`cursorY, this`maxLine, this`line, this`length, this`pos, line,
               this`historyIndex, this`historyPending, this`pasteActive
      ensures Valid()
      ensures OneKey(old(View()), key, lineIsPasted) == (View(), pasted, stop)
      ensures line == old(line) || fresh(line)
    {
      hide Accounted, Proper, StRingBuffer.Valid, HandleKey;
      pasted, stop := lineIsPasted, NeedInput;
      assert |View().Line()| == length;
      if !pasteActive {
        if key == KEY_CTRL_D {
          if length == 0 {
            return pasted, Eof;
          }
        }
        if key == KEY_PASTE_START {
          pasteActive := true;
          if length == 0 {
            pasted := true;
          }
          return;
        }
      } else if key == KEY_PASTE_END {
        pasteActive := false;
        return;
      }
      if !pasteActive {
        pasted := false;
      }
      var text, ok := PressKey(key);
      if ok {
        stop := Finished(text);
      }
    }

    method DrainKeys(bytes: seq<byte>, lineIsPasted: bool) returns (rest: seq<byte>, pasted: bool, stop: Stop)
      requires Valid()
      modifies this`outBuf, this`out, this`cursorX, this`cursorY, this`maxLine, this`line, this`length, this`pos, line,
               this`historyIndex, this`historyPending, this`pasteActive
      ensures Valid()
      ensures Drain(old(View()), bytes, lineIsPasted) == Drained(View(), rest, pasted, stop)
      ensures line == old(line) || fresh(line)
    {
      hide Accounted, Proper, StRingBuffer.Valid, OneKey, BytesToKey;
      rest, pasted, stop := bytes, lineIsPasted, NeedInput;
      while stop == NeedInput
        invariant Valid()
        invariant line == old(line) || fresh(line)
        invariant |rest| <= |bytes|
        invariant Drain(old(View()), bytes, lineIsPasted) ==
                  if stop == NeedInput then Drain(View(), rest, pasted) else Drained(View(), rest, pasted, stop)
        decreases |rest|, stop == NeedInput
      {
        var (key, next) := BytesToKey(rest, pasteActive);
        rest := next;
        if key == RUNE_ERROR {
          return;
        }
        pasted, stop := TakeKey(key, pasted);
      }
    }

    /** The unread bytes moved to the start of inBuf. */
    method KeepRest(rest: seq<byte>)
      requires Valid() && |rest| <= IN_BUF
      modifies this`remainder, inBuf
      ensures Valid() && View() == old(View())
      ensures inBuf[..remainder] == rest
    {
      hide Accounted, Proper, StRingBuffer.Valid;
      forall i | 0 <= i < |rest| {
        inBuf[i] := rest[i];
      }
      remainder := |rest|;
      assert inBuf[..remainder] == rest;
    }

    /** t.c.Read into the free part of inBuf. */
    method Fill()
      requires Valid() && input != []
      modifies this`remainder, this`input, inBuf
      ensures Valid() && View() == old(View())
      ensures var (bytes, more) := LineReader.Read(old(input), IN_BUF - old(remainder));
              inBuf[..remainder] == old(inBuf[..remainder]) + bytes && input == more
    {
      hide Accounted, Proper, StRingBuffer.Valid;
      var (bytes, more) := LineReader.Read(input, IN_BUF - remainder);
      ghost var was := inBuf[..remainder];
      var n := remainder;
      forall i | 0 <= i < |bytes| {
        inBuf[n + i] := bytes[i];
      }
      remainder := n + |bytes|;
      input := more;
      assert inBuf[..n] == was;
      assert inBuf[..remainder] == was + bytes;
    }

    /** A finished line goes into the history unless echo is off. */
    method RecordLine(text: seq<byte>)
      requires Valid()
      modifies this`historyIndex, history.Repr
      ensures Valid() && View() == Record(old(View()), text)
    {
      hide Accounted, Proper;
      if echo {
        historyIndex := -1;
        history.Add(text);
      }
    }

    /** One turn of readLine's loop: the keys at hand, the bytes they leave unread, and the output sent. */
    method Turn(lineIsPasted: bool) returns (pasted: bool, stop: Stop)
      requires Valid()
      modifies this`outBuf, this`out, this`cursorX, this`cursorY, this`maxLine, this`line, this`length, this`pos, line,
               this`historyIndex, this`historyPending, this`pasteActive, this`remainder, inBuf, this`written, this`verdicts,
               this`torn
      ensures Valid()
      ensures Drain(old(View()), old(inBuf[..remainder]), lineIsPasted) == Drained(View(), inBuf[..remainder], pasted, stop)
      ensures line == old(line) || fresh(line)
      ensures stop != Eof ==> Flushed()
      ensures old(Reliable()) ==> Reliable() && torn == old(torn)
    {
      hide Accounted, Encode, Flushed, Reliable, Proper, StRingBuffer.Valid, Drain;
      var rest;
      rest, pasted, stop := DrainKeys(inBuf[..remainder], lineIsPasted);
      KeepRest(rest);
      if stop != Eof {
        var _ := Flush();
      }
    }

    /** readLine */
    method ReadLine() returns (outcome: Outcome)
      requires Valid()
      modifies this`outBuf, this`out, this`cursorX, this`cursorY, this`maxLine, this`line, this`length, this`pos, line,
               this`historyIndex, this`historyPending, this`pasteActive, this`remainder, inBuf, this`written, this`verdicts,
               this`torn, this`input, history.Repr
      ensures Valid()
      ensures LineReader.ReadLine(old(View()), old(inBuf[..remainder]), old(input)) ==
              Call(View(), inBuf[..remainder], input, outcome)
      ensures outcome != EndOfInput ==> Flushed()
      ensures old(Reliable()) ==> Reliable() && torn == old(torn)
    {
      hide Accounted, Encode, Flushed, Reliable, Proper, StRingBuffer.Valid, ShowPrompt, ReadLoop;
      PrintPrompt();
      outcome := ReadOn(pasteActive);
    }

    method PrintPrompt()
      requires Valid()
      modifies this`outBuf, this`out, this`cursorX, this`cursorY, this`maxLine, this`written, this`verdicts, this`torn
      ensures Valid() && View() == ShowPrompt(old(View()))
      ensures old(Reliable()) ==> Reliable() && torn == old(torn)
    {
      hide Accounted, Encode, Flushed, Reliable, Proper, StRingBuffer.Valid, WriteLine;
      if cursorX == 0 && cursorY == 0 {
        WriteRunes(prompt);
        var _ := Flush();
      }
    }

    method ReadOn(lineIsPasted: bool) returns (outcome: Outcome)
      requires Valid()
      modifies this`outBuf, this`out, this`cursorX, this`cursorY, this`maxLine, this`line, this`length, this`pos, line,
               this`historyIndex, this`historyPending, this`pasteActive, this`remainder, inBuf, this`written, this`verdicts,
               this`torn, this`input, history.Repr
      ensures Valid()
      ensures ReadLoop(old(View()), old(inBuf[..remainder]), lineIsPasted, old(input)) ==
              Call(View(), inBuf[..remainder], input, outcome)
      ensures outcome != EndOfInput ==> Flushed()
      ensures old(Reliable()) ==> Reliable() && torn == old(torn)
    {
      hide Accounted, Encode, Flushed, Reliable, Proper, StRingBuffer.Valid, Flat, ReadLoop;
      var pasted, result := lineIsPasted, None;
      while result == None
        invariant Valid()
        invariant line == old(line) || fresh(line)
        invariant inBuf == old(inBuf) && (result == None ==> history.Repr == old(history.Repr))
        invariant ReadLoop(old(View()), old(inBuf[..remainder]), lineIsPasted, old(input)) ==
                  if result == None then ReadLoop(View(), inBuf[..remainder], pasted, input)
                  else Call(View(), inBuf[..remainder], input, result.value)
        invariant result != None && result != Some(EndOfInput) ==> Flushed()
        invariant old(Reliable()) ==> Reliable() && torn == old(torn)
        decreases result == None, |Flat(input)|, |input|
      {
        pasted, result := ReadRound(pasted);
      }
      outcome := result.value;
    }

    /** The keys at hand, and then the end of the call or one more Read. */
    method ReadRound(lineIsPasted: bool) returns (pasted: bool, result: Option<Outcome>)
      requires Valid()
      modifies this`outBuf, this`out, this`cursorX, this`cursorY, this`maxLine, this`line, this`length, this`pos, line,
               this`historyIndex, this`historyPending, this`pasteActive, this`remainder, inBuf, this`written, this`verdicts,
               this`torn, this`input, history.Repr
      ensures Valid()
      ensures line == old(line) || fresh(line)
      ensures ReadLoop(old(View()), old(inBuf[..remainder]), lineIsPasted, old(input)) ==
              if result == None then ReadLoop(View(), inBuf[..remainder], pasted, input)
              else Call(View(), inBuf[..remainder], input, result.value)
      ensures result == None ==> history.Repr == old(history.Repr)
      ensures result == None ==> Shorter(input, old(input))
      ensures result != Some(EndOfInput) ==> Flushed()
      ensures old(Reliable()) ==> Reliable() && torn == old(torn)
    {
      hide Accounted, Encode, Flushed, Reliable, Proper, StRingBuffer.Valid, Drain, LineReader.Read, Flat, Shorter, Record, ReadLoop;
      ReadLoopTurn(View(), inBuf[..remainder], lineIsPasted, input);
      var stop;
      pasted, stop := Turn(lineIsPasted);
      if stop == Eof {
        return pasted, Some(EndOfInput);
      }
      result := AfterKeys(stop, pasted);
    }

    /** A finished line is recorded and returned; without one the next bytes are read. */
    method AfterKeys(stop: Stop, pasted: bool) returns (result: Option<Outcome>)
      requires Valid() && !stop.Eof?
      modifies this`historyIndex, this`remainder, this`input, inBuf, history.Repr
      ensures Valid()
      ensures View() == if stop.Finished? then Record(old(View()), stop.line) else old(View())
      ensures result ==
              if stop.Finished? then Some(Line(stop.line, pasted))
              else if old(input) == [] then Some(ReadError)
              else if old(remainder) == IN_BUF then Some(Stalled)
              else None
      ensures result != None ==> input == old(input) && inBuf[..remainder] == old(inBuf[..remainder])
      ensures result == None ==>
                && history.Repr == old(history.Repr)
                && Shorter(input, old(input))
                && var (bytes, more) := LineReader.Read(old(input), IN_BUF - old(remainder));
                   inBuf[..remainder] == old(inBuf[..remainder]) + bytes && input == more
    {
      hide Accounted, Proper, StRingBuffer.Valid, LineReader.Read, Shorter, Record;
      match stop
      case Finished(line) =>
        RecordLine(line);
        result := Some(Line(line, pasted));
      case NeedInput =>
        result := AwaitInput();
    }

    /** One more Read, unless there is nothing left or no room. */
    method AwaitInput() returns (result: Option<Outcome>)
      requires Valid()
      modifies this`remainder, this`input, inBuf
      ensures Valid() && View() == old(View())
      ensures result == if old(input) == [] then Some(ReadError) else if old(remainder) == IN_BUF then Some(Stalled) else None
      ensures result != None ==> input == old(input) && inBuf[..remainder] == old(inBuf[..remainder])
      ensures result == None ==>
                && Shorter(input, old(input))
                && var (bytes, more) := LineReader.Read(old(input), IN_BUF - old(remainder));
                   inBuf[..remainder] == old(inBuf[..remainder]) + bytes && input == more
    {
      hide Accounted, Proper, StRingBuffer.Valid, LineReader.Read;
      if input == [] {
        return Some(ReadError);
      }
      if remainder == IN_BUF {
        return Some(Stalled);
      }
      Fill();
      return None;
    }
  }

  /** The measure of readLine's loop: bytes, and then reads, still to come. */
  predicate Shorter(input: seq<seq<byte>>, was: seq<seq<byte>>) {
    |Flat(input)| < |Flat(was)| || (|Flat(input)| == |Flat(was)| && |input| < |was|)
  }

  /** The turns readLine's loop takes. */
  lemma ReadLoopTurn(t: Term, rem: seq<byte>, pasted: bool, input: seq<seq<byte>>)
    requires t.InWidth() && t.histIndex >= -1 && |rem| <= IN_BUF
    ensures var d := Drain(t, rem, pasted);
            ReadLoop(t, rem, pasted, input) ==
              if d.stop.Finished? then Call(Record(d.t, d.stop.line), d.rest, input, Line(d.stop.line, d.pasted))
              else if d.stop == Eof then Call(d.t, d.rest, input, EndOfInput)
              else if input == [] then Call(d.t, d.rest, input, ReadError)
              else if |d.rest| == IN_BUF then Call(d.t, d.rest, input, Stalled)
              else
                var (bytes, more) := LineReader.Read(input, IN_BUF - |d.rest|);
                ReadLoop(d.t, d.rest + bytes, d.pasted, more)
  {
    hide Drain, LineReader.Read, Flat, Record;
  }

  // ---- Raw output ----

  /** The output with every line feed preceded by a carriage return. */
  function WithCrlf(b: seq<byte>): seq<byte> {
    if b == [] then []
    else (if b[0] == LF then [CR, LF] else [b[0]]) + WithCrlf(b[1..])
  }

  /**
   What writeWithCRLF reports: `n` bytes of `buf` went out, every line feed as CR LF. After an error a piece of a
   line feed's pair may have gone out that is not counted.
   */
  ghost predicate Delivered(buf: seq<byte>, n: nat, ok: bool, before: seq<byte>, after: seq<byte>) {
    && n <= |buf|
    && (ok ==> n == |buf| && after == before + WithCrlf(buf))
    && exists k: nat ::
         && k <= 2 && after == before + WithCrlf(buf[..n]) + [CR, LF][..k]
         && (k > 0 ==> !ok && n < |buf| && buf[n] == LF)
  }

  lemma DeliveredAll(buf: seq<byte>, n: nat, before: seq<byte>, after: seq<byte>)
    ensures Delivered(buf, n, true, before, after) ==> n == |buf| && after == before + WithCrlf(buf)
  {
  }

  /** The line feeds with their carriage returns taken off again. */
  function WithoutCrlf(b: seq<byte>): seq<byte> {
    if b == [] then []
    else if |b| > 1 && b[0] == CR && b[1] == LF then [LF] + WithoutCrlf(b[2..])
    else [b[0]] + WithoutCrlf(b[1..])
  }

  /** What raw output becomes: every line feed has its carriage return, and nothing else has changed. */
  lemma {:induction false} CrlfRoundTrip(b: seq<byte>)
    ensures WithoutCrlf(WithCrlf(b)) == b
    ensures var c := WithCrlf(b); forall i :: 0 <= i < |c| && c[i] == LF ==> i > 0 && c[i - 1] == CR
    ensures b != [] && b[0] == LF ==> WithCrlf(b)[..2] == [CR, LF]
    ensures b != [] && b[0] != LF ==> WithCrlf(b)[0] == b[0]
  {
    if b != [] {
      CrlfRoundTrip(b[1..]);
      var rest, c := WithCrlf(b[1..]), WithCrlf(b);
      if b[0] == LF {
        assert c == [CR, LF] + rest && c[2..] == rest;
        assert forall i :: 2 <= i < |c| ==> c[i] == rest[i - 2];
        assert rest != [] ==> rest[0] != LF by { CrlfStart(b[1..]); }
      } else {
        assert c == [b[0]] + rest && c[1..] == rest;
        assert forall i :: 1 <= i < |c| ==> c[i] == rest[i - 1];
        CrlfStart(b[1..]);
      }
    }
  }

  /** The output never begins with a line feed. */
  lemma CrlfStart(b: seq<byte>)
    ensures WithCrlf(b) != [] ==> WithCrlf(b)[0] != LF
    ensures |WithCrlf(b)| > 0 ==> b != []
  {
  }

  lemma NoPiece(sent: seq<byte>)
    ensures sent == sent + [CR, LF][..0]
  {
  }

  lemma CrlfNothing(sent: seq<byte>)
    ensures sent == sent + WithCrlf([])
  {
  }

  lemma {:induction false} CrlfAppend(a: seq<byte>, b: seq<byte>)
    ensures WithCrlf(a + b) == WithCrlf(a) + WithCrlf(b)
  {
    if a == [] {
      assert a + b == b;
    } else {
      assert (a + b)[1..] == a[1..] + b;
      CrlfAppend(a[1..], b);
    }
  }

  lemma {:induction false} CrlfPlain(b: seq<byte>)
    requires LF !in b
    ensures WithCrlf(b) == b
  {
    if b != [] {
      assert b[0] != LF;
      CrlfPlain(b[1..]);
    }
  }

  /** Text up to the next line feed goes out as it is. */
  lemma CrlfText(b: seq<byte>, n: nat, k: nat)
    requires n + k <= |b| && LF !in b[n..][..k]
    ensures WithCrlf(b[..n + k]) == WithCrlf(b[..n]) + b[n..][..k]
  {
    assert b[..n + k] == b[..n] + b[n..][..k];
    CrlfAppend(b[..n], b[n..][..k]);
    CrlfPlain(b[n..][..k]);
  }

  lemma CrlfNewline(b: seq<byte>, n: nat)
    requires n < |b| && b[n] == LF
    ensures WithCrlf(b[..n + 1]) == WithCrlf(b[..n]) + [CR, LF]
  {
    assert b[..n + 1] == b[..n] + [LF];
    CrlfAppend(b[..n], [LF]);
    assert [LF][1..] == [];
  }

  lemma EncodeNothing(b: seq<byte>)
    ensures b == b + Encode([])
  {
  }

  // move() in a single direction.

  lemma LeftOnly(out: seq<Rune>, x: nat)
    ensures (out + MoveSeq(0, 0, x, 0)) + ERASE_RIGHT == out + (Hop(x, 'D' as int) + ERASE_RIGHT)
  {
    assert MoveSeq(0, 0, x, 0) == Hop(x, 'D' as int);
  }

  lemma UpOnly(out: seq<Rune>)
    ensures (out + MoveSeq(1, 0, 0, 0)) + ERASE_RIGHT == out + (Hop(1, 'A' as int) + ERASE_RIGHT)
  {
    assert MoveSeq(1, 0, 0, 0) == Hop(1, 'A' as int);
  }

  lemma DownOnly(out: seq<Rune>)
    ensures (out + MoveSeq(0, 1, 0, 0)) + ERASE_RIGHT == out + (Hop(1, 'B' as int) + ERASE_RIGHT)
  {
    assert MoveSeq(0, 1, 0, 0) == Hop(1, 'B' as int);
  }

  lemma UpMany(out: seq<Rune>, n: nat)
    ensures out + MoveSeq(n, 0, 0, 0) == out + Hop(n, 'A' as int)
  {
    assert MoveSeq(n, 0, 0, 0) == Hop(n, 'A' as int);
  }

  // The three steps of addKeyToLine.

  function GapOpened(t: Term, key: Rune): (r: Term)
    ensures r.x == t.x && r.width == t.width && r.after != []
  {
    t.(after := [key] + t.after)
  }

  function GapDrawn(t: Term): (r: Term)
    requires t.InWidth()
    ensures r.InWidth() && r.after == t.after
  {
    if t.echo then WriteLine(t, t.after) else t
  }

  function GapPassed(t: Term): Term
    requires t.InWidth() && t.after != []
  {
    MoveCursorToPos(t.(before := t.before + [t.after[0]], after := t.after[1..]), |t.before| + 1)
  }

  lemma AddKeyByParts(t: Term, key: Rune)
    requires t.InWidth()
    ensures GapPassed(GapDrawn(GapOpened(t, key))) == AddKey(t, key)
  {
    hide Row, Col, VisualFrom, AdvanceCursor, WriteLine, MoveCursorToPos;
    WriteIgnoresLine(t, t.before, [key] + t.after, [key] + t.after);
  }

  lemma EraseNothing(t: Term)
    requires t.InWidth()
    ensures Erase(t, 0) == t
  {
  }

  // The three steps of eraseNPreviousChars.

  function SteppedBack(t: Term, n: nat): (r: Term)
    requires t.InWidth() && n <= |t.before|
    ensures r.InWidth() && |r.after| == n + |t.after| && r.Pos() == t.Pos() - n
  {
    var p := |t.before| - n;
    MoveCursorToPos(t.(before := t.before[..p], after := t.before[p..] + t.after), p)
  }

  function GapClosed(t: Term, n: nat): (r: Term)
    requires n <= |t.after|
    ensures r.x == t.x && r.width == t.width
  {
    t.(after := t.after[n..])
  }

  function TailRedrawn(t: Term, n: nat): Term
    requires t.InWidth()
  {
    if t.echo then MoveCursorToPos(AdvanceCursor(Queue(WriteLine(t, t.after), Spaces(n)), n), t.Pos()) else t
  }

  lemma EraseByParts(t: Term, count: nat, n: nat)
    requires t.InWidth() && count > 0 && n == if t.Pos() < count then t.Pos() else count
    ensures TailRedrawn(GapClosed(SteppedBack(t, n), n), n) == Erase(t, count)
  {
    hide Row, Col, VisualFrom, AdvanceCursor, WriteLine, MoveCursorToPos, Spaces;
    var p := t.Pos() - n;
    MoveIgnoresLine(t.(before := t.before[..p]), t.before[..p], t.before[p..] + t.after, p);
    assert (t.before[p..] + t.after)[n..] == t.after;
  }

  lemma AdvanceIgnoresLine(t: Term, b: seq<Rune>, a: seq<Rune>, runes: seq<Rune>, n: nat)
    requires t.width > 0
    ensures AdvanceCursor(Queue(t.(before := b, after := a), runes), n) ==
            AdvanceCursor(Queue(t, runes), n).(before := b, after := a)
  {
    hide Row, Col;
  }

  lemma {:induction false} WriteIgnoresLine(t: Term, b: seq<Rune>, a: seq<Rune>, runes: seq<Rune>)
    requires t.InWidth()
    ensures WriteLine(t.(before := b, after := a), runes) == WriteLine(t, runes).(before := b, after := a)
    decreases |runes|
  {
    hide Row, Col, VisualFrom, VisualLength, AdvanceCursor;
    if runes != [] {
      var todo := if |runes| > t.width - t.x then t.width - t.x else |runes|;
      var u := AdvanceCursor(Queue(t, runes[..todo]), VisualLength(runes[..todo]));
      AdvanceIgnoresLine(t, b, a, runes[..todo], VisualLength(runes[..todo]));
      WriteIgnoresLine(u, b, a, runes[todo..]);
    }
  }
}
