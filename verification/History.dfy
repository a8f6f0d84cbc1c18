/** The history ring of the line editor, and what walking through it restores. */
module History {
  import opened Options
  import opened Utf8
  import opened Screen
  import opened LineEditor

  /** stRingBuffer. `added` is the list of everything ever added, oldest first. */
  class StRingBuffer {
    var entries: array?<seq<byte>>
    var max: nat
    var head: nat
    var size: nat
    ghost var added: seq<seq<byte>>
    ghost var Repr: set<object>

    ghost predicate Valid()
      reads this, Repr
    {
      && this in Repr
      && (entries == null ==> added == [] && max == 0 && head == 0 && size == 0)
      && (entries != null ==>
            && entries in Repr
            && entries.Length == max == HISTORY_SIZE
            && head < max
            && size == (if |added| < max then |added| else max)
            && forall n :: 0 <= n < size ==> entries[Slot(head, n)] == added[|added| - 1 - n])
    }

    constructor ()
      ensures Valid() && fresh(Repr) && added == []
    {
      entries := null;
      max, head, size := 0, 0, 0;
      added := [];
      Repr := {this};
    }

    /** The slot written n additions before the one at `head`. */
    static function Slot(head: nat, n: nat): int {
      if head >= n then head - n else head - n + HISTORY_SIZE
    }

    method Add(a: seq<byte>)
      requires Valid()
      modifies Repr
      ensures Valid() && fresh(Repr - old(Repr))
      ensures added == old(added) + [a]
    {
      if entries == null {
        entries := new seq<byte>[HISTORY_SIZE](_ => []);
        max := HISTORY_SIZE;
        Repr := Repr + {entries};
      }
      ghost var before, oldHead := entries[..], head;
      head := (head + 1) % max;
      entries[head] := a;
      if size < max {
        size := size + 1;
      }
      added := added + [a];
      forall n | 0 <= n < size
        ensures entries[Slot(head, n)] == added[|added| - 1 - n]
      {
        if n > 0 {
          assert Slot(head, n) == Slot(oldHead, n - 1);
          assert entries[Slot(head, n)] == before[Slot(oldHead, n - 1)];
        }
      }
    }

    /** The ring holds the last HISTORY_SIZE additions, newest first, and nothing else. */
    method NthPreviousEntry(n: nat) returns (value: seq<byte>, ok: bool)
      requires Valid()
      ensures ok <==> n < Available(added)
      ensures value == if ok then added[|added| - 1 - n] else []
      ensures NthPrevious(added, n) == if ok then Some(value) else None
    {
      if n >= size {
        return [], false;
      }
      var index := head - n;
      if index < 0 {
        index := index + max;
      }
      assert index == Slot(head, n);
      return entries[index], true;
    }
  }

  /** How many entries of a history the ring still holds. */
  function Available(history: seq<seq<byte>>): nat {
    if |history| < HISTORY_SIZE then |history| else HISTORY_SIZE
  }

  function Ups(t: Term, k: nat): (r: Term)
    requires t.InWidth() && t.histIndex >= -1
    ensures r.InWidth() && r.histIndex >= -1
    decreases k
  {
    if k == 0 then t else HistoryUp(Ups(t, k - 1))
  }

  function Downs(t: Term, k: nat): (r: Term)
    requires t.InWidth() && t.histIndex >= -1
    ensures r.InWidth() && r.histIndex >= -1
    decreases k
  {
    if k == 0 then t else Downs(HistoryDown(t), k - 1)
  }

  lemma RecallShows(t: Term, entry: seq<byte>)
    requires t.InWidth()
    ensures var r := Recall(t, entry); r.before == Decode(entry) && r.after == [] && SameContext(t, r)
  {
    hide WriteLine, WriteSpaces, MoveCursorToPos, Decode;
  }

  /** One Up from a state whose index is inside the ring. */
  lemma UpRecalls(t: Term)
    requires t.InWidth() && -1 <= t.histIndex < Available(t.history)
    ensures var u := HistoryUp(t);
            if t.histIndex + 1 < Available(t.history) then
              && u.histIndex == t.histIndex + 1 && u.history == t.history
              && u.histPending == (if t.histIndex == -1 then Encode(t.Line()) else t.histPending)
              && u.before == Decode(t.history[|t.history| - 2 - t.histIndex]) && u.after == []
            else u == t
  {
    hide Encode, Decode, Recall, SameContext;
    if t.histIndex + 1 < Available(t.history) {
      var entry := t.history[|t.history| - 2 - t.histIndex];
      var pending := if t.histIndex == -1 then Encode(t.Line()) else t.histPending;
      RecallShows(t.(histPending := pending, histIndex := t.histIndex + 1), entry);
      RecallContext(t.(histPending := pending, histIndex := t.histIndex + 1), entry);
    }
  }

  lemma RecallContext(t: Term, entry: seq<byte>)
    requires t.InWidth()
    ensures var r := Recall(t, entry); r.histIndex == t.histIndex && r.history == t.history && r.histPending == t.histPending
  {
    hide Recall;
  }

  /** One Down. */
  lemma DownRecalls(t: Term)
    requires t.InWidth() && -1 <= t.histIndex < Available(t.history)
    ensures var u := HistoryDown(t);
            && u.histIndex == (if t.histIndex == -1 then -1 else t.histIndex - 1)
            && u.history == t.history && u.histPending == t.histPending
            && (t.histIndex == -1 ==> u == t)
            && (t.histIndex == 0 ==> u.before == Decode(t.histPending) && u.after == [])
            && (t.histIndex > 0 ==> u.before == Decode(t.history[|t.history| - t.histIndex]) && u.after == [])
  {
    hide Encode, Decode, Recall, SameContext;
    if t.histIndex == 0 {
      RecallShows(t, t.histPending);
      RecallContext(t, t.histPending);
    } else if t.histIndex > 0 {
      RecallShows(t.(histIndex := t.histIndex - 1), t.history[|t.history| - t.histIndex]);
      RecallContext(t.(histIndex := t.histIndex - 1), t.history[|t.history| - t.histIndex]);
    }
  }

  /** k Ups from the line being typed show the k-th newest entry, or the oldest one kept. */
  lemma {:induction false} UpsShow(t: Term, k: nat)
    requires t.InWidth() && t.histIndex == -1
    ensures var u := Ups(t, k);
            var n := if k < Available(t.history) then k else Available(t.history);
            && u.histIndex == n - 1 && u.history == t.history
            && (n == 0 ==> u == t)
            && (n > 0 ==>
                  && u.histPending == Encode(t.Line())
                  && u.before == Decode(t.history[|t.history| - n])
                  && u.after == [])
    decreases k
  {
    hide Encode, Decode, HistoryUp;
    if k > 0 {
      UpsShow(t, k - 1);
      UpRecalls(Ups(t, k - 1));
    }
  }

  /** Enough Downs lead back to the line that was pending, and no further. */
  lemma {:induction false} DownsReturn(u: Term, k: nat)
    requires u.InWidth() && -1 <= u.histIndex < Available(u.history) && u.histIndex < k
    ensures var r := Downs(u, k);
            && r.histIndex == -1
            && (u.histIndex == -1 ==> r == u)
            && (u.histIndex >= 0 ==> r.before == Decode(u.histPending) && r.after == [])
    decreases k
  {
    hide Encode, Decode, HistoryDown;
    if k > 0 {
      DownRecalls(u);
      DownsReturn(HistoryDown(u), k - 1);
    }
  }

  /** From the k-th newest entry j Downs, fewer than k, show the (k - j)-th newest. */
  lemma {:induction false} DownsShow(u: Term, j: nat)
    requires u.InWidth() && 0 <= u.histIndex < Available(u.history) && 0 < j <= u.histIndex
    ensures var r := Downs(u, j);
            && r.histIndex == u.histIndex - j && r.history == u.history
            && r.before == Decode(u.history[|u.history| - 1 - r.histIndex]) && r.after == []
    decreases j
  {
    hide Encode, Decode, HistoryDown;
    DownRecalls(u);
    if j > 1 {
      DownsShow(HistoryDown(u), j - 1);
    }
  }

  /**
   k Ups followed by k Downs, for any k: the unfinished line comes back with the cursor at its end, each
   rune that is no scalar value replaced by U+FFFD; with no history (or k = 0) nothing changes at all.
   */
  lemma UpsThenDowns(t: Term, k: nat)
    requires t.InWidth() && t.histIndex == -1
    ensures var r := Downs(Ups(t, k), k);
            && r.histIndex == -1
            && (k == 0 || t.history == [] ==> r == t)
            && (k > 0 && t.history != [] ==> r.before == Scalars(t.Line()) && r.after == [])
  {
    UpsShow(t, k);
    DownsReturn(Ups(t, k), k);
    DecodeEncode(t.Line());
  }

  /** The index stays inside the entries kept, whatever key is pressed. */
  predicate IndexOk(t: Term) {
    -1 <= t.histIndex < Available(t.history)
  }

  lemma HandleKeyIndex(t: Term, key: Rune)
    requires t.InWidth() && IndexOk(t)
    ensures IndexOk(HandleKey(t, key).0) && HandleKey(t, key).0.history == t.history
    ensures forall line :: IndexOk(Record(HandleKey(t, key).0, line))
  {
    hide Erase, MoveTo, AddKey, ClearScreen, TypeKey, BlankOut, MoveCursorToPos, WordLeft, WordRight, Decode, Encode,
         EndLine, SetLine;
  }
}
