/** What the word keys and the deletions mean for the line, stated without the loops that compute it. */
module EditLaws {
  import opened Options
  import opened Utf8
  import opened Screen
  import opened LineEditor

  predicate AllSpaces(rs: seq<Rune>) {
    forall i :: 0 <= i < |rs| ==> rs[i] == SPACE
  }

  predicate NoSpaces(rs: seq<Rune>) {
    forall i :: 0 <= i < |rs| ==> rs[i] != SPACE
  }

  lemma {:induction false} SkipSpacesLeftStops(line: seq<Rune>, pos: nat)
    requires pos < |line|
    ensures var p := SkipSpacesLeft(line, pos);
            forall i :: p < i <= pos ==> line[i] == SPACE
    decreases pos
  {
    if pos > 0 && line[pos] == SPACE {
      SkipSpacesLeftStops(line, pos - 1);
    }
  }

  lemma {:induction false} SkipWordLeftStops(line: seq<Rune>, pos: nat)
    requires pos < |line|
    ensures var p := SkipWordLeft(line, pos);
            && (forall i :: p <= i <= pos && i > 0 ==> line[i] != SPACE)
            && (p > 0 ==> line[p - 1] == SPACE)
    decreases pos
  {
    if pos > 0 && line[pos] != SPACE {
      SkipWordLeftStops(line, pos - 1);
    }
  }

  /**
   Left of the cursor a word and the spaces behind it are skipped, as many as there are: `from` is where the
   word starts and `gap` where its spaces start. The first rune of the line is never inspected, so it is
   taken as part of the word even if it is a space.
   */
  lemma WordLeftMeaning(before: seq<Rune>) returns (from: nat, gap: nat)
    requires before != []
    ensures WordLeft(before) == |before| - from && 1 <= WordLeft(before) <= |before|
    ensures from < gap <= |before|
    ensures AllSpaces(before[gap..])
    ensures NoSpaces(before[if from == 0 then 1 else from..gap])
    ensures from > 0 ==> before[from - 1] == SPACE
  {
    var p := SkipSpacesLeft(before, |before| - 1);
    SkipSpacesLeftStops(before, |before| - 1);
    WordLeftBound(before, p);
    SkipWordLeftStops(before, p);
    from, gap := SkipWordLeft(before, p), p + 1;
  }

  /** Right of the cursor the rest of a word and the spaces behind it are skipped, as many as there are. */
  lemma WordRightMeaning(after: seq<Rune>) returns (gap: nat)
    ensures gap <= WordRight(after) <= |after|
    ensures NoSpaces(after[..gap]) && AllSpaces(after[gap..WordRight(after)])
    ensures gap < |after| ==> after[gap] == SPACE
    ensures WordRight(after) < |after| ==> after[WordRight(after)] != SPACE
  {
    gap := SkipRight(after, 0, false);
  }

  /** Every cursor key keeps the line and puts the cursor where it says. */
  lemma MotionKeepsLine(t: Term, key: Rune)
    requires t.InWidth() && t.histIndex >= -1 && !t.paste
    requires key in {KEY_LEFT, KEY_RIGHT, KEY_HOME, KEY_END, KEY_ALT_LEFT, KEY_ALT_RIGHT}
    ensures var r := HandleKey(t, key).0;
            && r.Line() == t.Line()
            && (key == KEY_HOME ==> r.before == [])
            && (key == KEY_END ==> r.after == [])
            && (key == KEY_LEFT ==> r.Pos() == Minus(t.Pos(), 1))
            && (key == KEY_RIGHT ==> r.Pos() == if t.after == [] then t.Pos() else t.Pos() + 1)
            && (key == KEY_ALT_LEFT ==> r.Pos() == t.Pos() - WordLeft(t.before))
            && (key == KEY_ALT_RIGHT ==> r.Pos() == t.Pos() + WordRight(t.after))
  {
    hide MoveCursorToPos, WordLeft, WordRight;
  }

  /** What each deletion removes, on the runes before and after the cursor. */
  lemma DeletionMeaning(t: Term, key: Rune)
    requires t.InWidth() && t.histIndex >= -1 && !t.paste
    requires key in {KEY_BACKSPACE, KEY_CTRL_D, KEY_CTRL_U, KEY_DELETE_LINE, KEY_DELETE_WORD}
    ensures var r := HandleKey(t, key).0;
            && (key == KEY_BACKSPACE ==> r.before == t.before[..Minus(t.Pos(), 1)] && r.after == t.after)
            && (key == KEY_CTRL_D ==> r.before == t.before && r.after == t.after[if t.after == [] then 0 else 1..])
            && (key == KEY_CTRL_U ==> r.before == [] && r.after == t.after)
            && (key == KEY_DELETE_LINE ==> r.before == t.before && r.after == [])
            && (key == KEY_DELETE_WORD ==> r.before == t.before[..t.Pos() - WordLeft(t.before)] && r.after == t.after)
  {
    hide MoveCursorToPos, WordLeft, WriteLine, AdvanceCursor, BlankOut, Spaces;
  }

  /** Typing a printable key and erasing it again gives the line back, wherever the cursor was. */
  lemma TypeThenBackspace(t: Term, key: Rune)
    requires t.InWidth() && t.histIndex >= -1 && !t.paste
    requires IsPrintable(key) && |t.Line()| != MAX_LINE_LENGTH && key != KEY_BACKSPACE
    requires t.complete(Encode(t.before) + Encode(t.after), |Encode(t.before)|, key) == None
    ensures var u := HandleKey(t, key).0;
            var r := HandleKey(u, KEY_BACKSPACE).0;
            && u.before == t.before + [key] && u.after == t.after
            && r.before == t.before && r.after == t.after
  {
    hide MoveCursorToPos, WriteLine, AdvanceCursor, Spaces, Encode;
  }

  // ---- What is not shown ----

  /** An escape sequence in a prompt, such as a colour, takes no column. */
  lemma {:induction false} EscapesAreInvisible(a: seq<Rune>, middle: seq<Rune>, final: Rune, b: seq<Rune>)
    requires forall i :: 0 <= i < |a| ==> a[i] != ESC
    requires forall i :: 0 <= i < |middle| ==>
               !('a' as int <= middle[i] <= 'z' as int) && !('A' as int <= middle[i] <= 'Z' as int)
    requires 'a' as int <= final <= 'z' as int || 'A' as int <= final <= 'Z' as int
    ensures VisualLength(a + [ESC] + middle + [final] + b) == |a| + VisualLength(b)
    decreases |a|
  {
    var s := a + [ESC] + middle + [final] + b;
    if a == [] {
      assert s[0] == ESC && s[1..] == middle + [final] + b;
      EscapeEnds(middle, final, b);
    } else {
      assert s[0] == a[0] && s[1..] == a[1..] + [ESC] + middle + [final] + b;
      EscapesAreInvisible(a[1..], middle, final, b);
    }
  }

  lemma {:induction false} EscapeEnds(middle: seq<Rune>, final: Rune, b: seq<Rune>)
    requires forall i :: 0 <= i < |middle| ==>
               !('a' as int <= middle[i] <= 'z' as int) && !('A' as int <= middle[i] <= 'Z' as int)
    requires 'a' as int <= final <= 'z' as int || 'A' as int <= final <= 'Z' as int
    ensures VisualFrom(middle + [final] + b, true) == VisualLength(b)
    decreases |middle|
  {
    var s := middle + [final] + b;
    if middle == [] {
      assert s[0] == final && s[1..] == b;
    } else {
      assert s[0] == middle[0] && s[1..] == middle[1..] + [final] + b;
      EscapeEnds(middle[1..], final, b);
    }
  }

  lemma SilentEdits(t: Term, line: seq<Rune>, pos: nat, count: nat, key: Rune)
    requires t.InWidth() && !t.echo && pos <= |line|
    ensures SetLine(t, line, pos).out == t.out && Erase(t, count).out == t.out && AddKey(t, key).out == t.out
    ensures MoveCursorToPos(t, pos) == t
  {
  }

  lemma SilentHistory(t: Term)
    requires t.InWidth() && t.histIndex >= -1 && !t.echo
    ensures HistoryUp(t).out == t.out && HistoryDown(t).out == t.out
  {
    hide Decode, Encode;
  }

  lemma SilentTyping(t: Term, key: Rune)
    requires t.InWidth() && !t.echo
    ensures TypeKey(t, key).out == t.out
  {
    hide Decode, Encode;
  }

  /**
   With echo off nothing that is typed is shown: keys print nothing, but for the new row of a finished line, the prompt of
   Ctrl-L, and blanks that Ctrl-K prints all the same.
   */
  lemma SilentWithoutEcho(t: Term, key: Rune)
    requires t.InWidth() && t.histIndex >= -1 && !t.echo
    ensures var u := HandleKey(t, key).0;
            if key == KEY_ENTER || (key == KEY_CTRL_C && !t.paste) then u.out == t.out + [CR, LF]
            else if !t.paste && key == KEY_CLEAR_SCREEN then u.out == PromptPrinted(t).out
            else if !t.paste && key == KEY_DELETE_LINE then u.out == BlankOut(t, |t.after|).out
            else u.out == t.out
  {
    hide HandleKey, BlankOut, PromptPrinted;
    if key == KEY_ENTER || (key == KEY_CTRL_C && !t.paste) {
      SilentEnd(t, key);
    } else if !t.paste && (key == KEY_CLEAR_SCREEN || key == KEY_DELETE_LINE) {
      SilentScreen(t, key);
    } else if t.paste || key !in MOTIONS {
      SilentKey(t, key);
    } else {
      SilentMotion(t, key);
    }
  }

  const MOTIONS: set<Rune> := {KEY_LEFT, KEY_RIGHT, KEY_HOME, KEY_END, KEY_ALT_LEFT, KEY_ALT_RIGHT}

  lemma SilentEnd(t: Term, key: Rune)
    requires t.InWidth() && t.histIndex >= -1 && !t.echo && (key == KEY_ENTER || (key == KEY_CTRL_C && !t.paste))
    ensures HandleKey(t, key).0.out == t.out + [CR, LF]
  {
    hide Encode;
  }

  /** What Ctrl-L prints: the clearing sequence and the prompt. */
  function PromptPrinted(t: Term): Term
    requires t.InWidth()
  {
    AdvanceCursor(Queue(Queue(t, CLEAR_AND_HOME), t.prompt).(x := 0, y := 0), VisualLength(t.prompt))
  }

  lemma SilentClear(t: Term)
    requires t.InWidth() && !t.echo
    ensures ClearScreen(t).out == PromptPrinted(t).out
  {
    hide AdvanceCursor, SetLine, VisualFrom;
    SilentEdits(PromptPrinted(t), t.Line(), t.Pos(), 0, 0);
  }

  lemma SilentScreen(t: Term, key: Rune)
    requires t.InWidth() && t.histIndex >= -1 && !t.echo && !t.paste && (key == KEY_CLEAR_SCREEN || key == KEY_DELETE_LINE)
    ensures key == KEY_CLEAR_SCREEN ==> HandleKey(t, key).0.out == PromptPrinted(t).out
    ensures key == KEY_DELETE_LINE ==> HandleKey(t, key).0.out == BlankOut(t, |t.after|).out
  {
    hide ClearScreen, BlankOut, PromptPrinted;
    SilentClear(t);
  }

  lemma SilentMotion(t: Term, key: Rune)
    requires t.InWidth() && t.histIndex >= -1 && !t.echo && !t.paste && key in MOTIONS
    ensures HandleKey(t, key).0.out == t.out
  {
    hide WordLeft, WordRight;
  }

  lemma SilentKey(t: Term, key: Rune)
    requires t.InWidth() && t.histIndex >= -1 && !t.echo && key != KEY_ENTER
    requires t.paste || key !in MOTIONS + {KEY_CTRL_C, KEY_CLEAR_SCREEN, KEY_DELETE_LINE}
    ensures HandleKey(t, key).0.out == t.out
  {
    hide WordLeft, Erase, AddKey, HistoryUp, HistoryDown, TypeKey, MoveTo, EndLine, ClearScreen, BlankOut, MoveCursorToPos;
    SilentEdits(t, [], 0, 1, key);
    SilentEdits(t, [], 0, WordLeft(t.before), key);
    SilentEdits(t, [], 0, t.Pos(), key);
    SilentHistory(t);
    SilentTyping(t, key);
    if t.after != [] {
      SilentEdits(t.(before := t.before + [t.after[0]], after := t.after[1..]), [], 0, 1, key);
    }
  }

  // ---- Compound keys as repeated simple ones ----

  /** The editor after a key pressed k times. */
  function Times(t: Term, key: Rune, k: nat): (r: Term)
    requires t.InWidth() && t.histIndex >= -1
    ensures r.InWidth() && r.histIndex >= -1
  {
    if k == 0 then t else HandleKey(Times(t, key, k - 1), key).0
  }

  predicate SameLine(t: Term, r: Term) {
    t.before == r.before && t.after == r.after
  }

  lemma {:induction false} BackspaceTimes(t: Term, k: nat)
    requires t.InWidth() && t.histIndex >= -1 && !t.paste && k <= t.Pos()
    ensures var r := Times(t, KEY_BACKSPACE, k); r.before == t.before[..t.Pos() - k] && r.after == t.after && !r.paste
  {
    hide HandleKey;
    if k > 0 {
      BackspaceTimes(t, k - 1);
      SimpleKeys(Times(t, KEY_BACKSPACE, k - 1));
    }
  }

  lemma {:induction false} DeleteTimes(t: Term, k: nat)
    requires t.InWidth() && t.histIndex >= -1 && !t.paste && k <= |t.after|
    ensures var r := Times(t, KEY_CTRL_D, k); r.before == t.before && r.after == t.after[k..] && !r.paste
  {
    hide HandleKey;
    if k > 0 {
      DeleteTimes(t, k - 1);
      SimpleKeys(Times(t, KEY_CTRL_D, k - 1));
    }
  }

  lemma {:induction false} LeftTimes(t: Term, k: nat)
    requires t.InWidth() && t.histIndex >= -1 && !t.paste && k <= t.Pos()
    ensures var r := Times(t, KEY_LEFT, k);
            r.before == t.before[..t.Pos() - k] && r.after == t.before[t.Pos() - k..] + t.after && !r.paste
  {
    hide HandleKey;
    if k > 0 {
      LeftTimes(t, k - 1);
      SimpleKeys(Times(t, KEY_LEFT, k - 1));
    } else {
      assert t.before[t.Pos()..] + t.after == t.after;
    }
  }

  lemma {:induction false} RightTimes(t: Term, k: nat)
    requires t.InWidth() && t.histIndex >= -1 && !t.paste && k <= |t.after|
    ensures var r := Times(t, KEY_RIGHT, k); r.before == t.before + t.after[..k] && r.after == t.after[k..] && !r.paste
  {
    hide HandleKey;
    if k > 0 {
      RightTimes(t, k - 1);
      SimpleKeys(Times(t, KEY_RIGHT, k - 1));
      assert t.after[..k] == t.after[..k - 1] + [t.after[k - 1]];
    }
  }

  /** What the four simple keys do to the line. */
  lemma SimpleKeys(t: Term)
    requires t.InWidth() && t.histIndex >= -1 && !t.paste
    ensures var r := HandleKey(t, KEY_BACKSPACE).0;
            r.before == t.before[..Minus(t.Pos(), 1)] && r.after == t.after && !r.paste
    ensures var r := HandleKey(t, KEY_CTRL_D).0;
            r.before == t.before && r.after == t.after[if t.after == [] then 0 else 1..] && !r.paste
    ensures var r := HandleKey(t, KEY_LEFT).0;
            t.Pos() > 0 ==> r.before == t.before[..t.Pos() - 1] && r.after == [t.before[t.Pos() - 1]] + t.after && !r.paste
    ensures var r := HandleKey(t, KEY_RIGHT).0;
            t.after != [] ==> r.before == t.before + [t.after[0]] && r.after == t.after[1..] && !r.paste
  {
    hide MoveCursorToPos, WriteLine, AdvanceCursor, Spaces;
  }

  lemma BackAgrees(t: Term, key: Rune, k: nat)
    requires t.InWidth() && t.histIndex >= -1 && !t.paste
    requires (key == KEY_HOME && k == t.Pos()) || (key == KEY_ALT_LEFT && k == WordLeft(t.before))
    ensures SameLine(HandleKey(t, key).0, Times(t, KEY_LEFT, k))
  {
    hide HandleKey, Times, WordLeft;
    LeftTimes(t, k);
    MotionKeepsLine(t, key);
    SplitLine(HandleKey(t, key).0, Times(t, KEY_LEFT, k));
  }

  lemma ForwardAgrees(t: Term, key: Rune, k: nat)
    requires t.InWidth() && t.histIndex >= -1 && !t.paste
    requires (key == KEY_END && k == |t.after|) || (key == KEY_ALT_RIGHT && k == WordRight(t.after))
    ensures SameLine(HandleKey(t, key).0, Times(t, KEY_RIGHT, k))
  {
    hide HandleKey, Times, WordRight;
    RightTimes(t, k);
    MotionKeepsLine(t, key);
    SplitLine(HandleKey(t, key).0, Times(t, KEY_RIGHT, k));
  }

  /** Every compound cursor key is a number of simple ones: pos or the rest of the line, or a word's length. */
  lemma MotionsAgree(t: Term)
    requires t.InWidth() && t.histIndex >= -1 && !t.paste
    ensures SameLine(HandleKey(t, KEY_HOME).0, Times(t, KEY_LEFT, t.Pos()))
    ensures SameLine(HandleKey(t, KEY_END).0, Times(t, KEY_RIGHT, |t.after|))
    ensures SameLine(HandleKey(t, KEY_ALT_LEFT).0, Times(t, KEY_LEFT, WordLeft(t.before)))
    ensures SameLine(HandleKey(t, KEY_ALT_RIGHT).0, Times(t, KEY_RIGHT, WordRight(t.after)))
  {
    hide HandleKey, Times, WordLeft, WordRight, SameLine;
    BackAgrees(t, KEY_HOME, t.Pos());
    BackAgrees(t, KEY_ALT_LEFT, WordLeft(t.before));
    ForwardAgrees(t, KEY_END, |t.after|);
    ForwardAgrees(t, KEY_ALT_RIGHT, WordRight(t.after));
  }

  lemma SplitLine(t: Term, r: Term)
    requires t.Line() == r.Line() && t.Pos() == r.Pos()
    ensures SameLine(t, r)
  {
    assert t.before == t.Line()[..t.Pos()] && r.before == r.Line()[..r.Pos()];
    assert t.after == t.Line()[t.Pos()..] && r.after == r.Line()[r.Pos()..];
  }

  /** Every compound deletion is a motion or nothing, and then a number of simple deletions. */
  lemma DeletionsAgree(t: Term)
    requires t.InWidth() && t.histIndex >= -1 && !t.paste
    ensures SameLine(HandleKey(t, KEY_CTRL_U).0, Times(t, KEY_BACKSPACE, t.Pos()))
    ensures SameLine(HandleKey(t, KEY_CTRL_U).0, Times(HandleKey(t, KEY_HOME).0, KEY_CTRL_D, t.Pos()))
    ensures SameLine(HandleKey(t, KEY_DELETE_WORD).0, Times(t, KEY_BACKSPACE, WordLeft(t.before)))
    ensures SameLine(HandleKey(t, KEY_DELETE_WORD).0, Times(HandleKey(t, KEY_ALT_LEFT).0, KEY_CTRL_D, WordLeft(t.before)))
    ensures SameLine(HandleKey(t, KEY_DELETE_LINE).0, Times(t, KEY_CTRL_D, |t.after|))
  {
    hide HandleKey, Times, WordLeft;
    BackspaceTimes(t, t.Pos());
    BackspaceTimes(t, WordLeft(t.before));
    DeleteTimes(t, |t.after|);
    DeletionMeaning(t, KEY_CTRL_U);
    DeletionMeaning(t, KEY_DELETE_WORD);
    DeletionMeaning(t, KEY_DELETE_LINE);
    BackThenDelete(t, KEY_HOME, t.Pos());
    BackThenDelete(t, KEY_ALT_LEFT, WordLeft(t.before));
  }

  /** Going back over k runes and deleting as many leaves what was before them and what is after the cursor. */
  lemma BackThenDelete(t: Term, key: Rune, k: nat)
    requires t.InWidth() && t.histIndex >= -1 && !t.paste && k <= t.Pos()
    requires (key == KEY_HOME && k == t.Pos()) || (key == KEY_ALT_LEFT && k == WordLeft(t.before))
    ensures var r := Times(HandleKey(t, key).0, KEY_CTRL_D, k); r.before == t.before[..t.Pos() - k] && r.after == t.after
  {
    hide HandleKey, Times, WordLeft;
    BackAgrees(t, key, k);
    LeftTimes(t, k);
    KeepsMode(t, key);
    DeleteTimes(HandleKey(t, key).0, k);
    assert (t.before[t.Pos() - k..] + t.after)[k..] == t.after;
  }

  lemma KeepsMode(t: Term, key: Rune)
    requires t.InWidth() && t.histIndex >= -1 && (key == KEY_HOME || key == KEY_ALT_LEFT)
    ensures HandleKey(t, key).0.paste == t.paste
  {
    hide MoveCursorToPos, WordLeft, WriteLine;
  }
}
