/**
 readLine: how chunks of input become lines. The reader is a script of reads; a call that finds no
 more input returns its error, and one whose buffer is full of an unfinished key can only stall.
 */
module LineReader {
  import opened Options
  import opened Utf8
  import opened Screen
  import opened LineEditor
  import opened KeyDecoder

  const IN_BUF := 256

  datatype Stop = NeedInput | Finished(line: seq<byte>) | Eof

  /** One decoded key: the end-of-input key, the paste brackets, or a key for the editor. */
  function OneKey(t: Term, key: Rune, pasted: bool): (r: (Term, bool, Stop))
    requires t.InWidth() && t.histIndex >= -1
    ensures r.0.InWidth() && r.0.histIndex >= -1
  {
    if !t.paste && key == KEY_CTRL_D && t.Line() == [] then (t, pasted, Eof)
    else if !t.paste && key == KEY_PASTE_START then (t.(paste := true), pasted || t.Line() == [], NeedInput)
    else if t.paste && key == KEY_PASTE_END then (t.(paste := false), pasted, NeedInput)
    else
      var (u, line) := HandleKey(t, key);
      (u, pasted && t.paste, if line.Some? then Finished(line.value) else NeedInput)
  }

  datatype Drained = Drained(t: Term, rest: seq<byte>, pasted: bool, stop: Stop)

  /** The inner loop of readLine. */
  function Drain(t: Term, rest: seq<byte>, pasted: bool): (d: Drained)
    requires t.InWidth() && t.histIndex >= -1
    ensures d.t.InWidth() && d.t.histIndex >= -1
    ensures |d.rest| <= |rest|
    ensures d.stop != NeedInput ==> |d.rest| < |rest|
    decreases |rest|
  {
    var (key, rest') := BytesToKey(rest, t.paste);
    if key == RUNE_ERROR then Drained(t, rest', pasted, NeedInput)
    else
      var (u, p, stop) := OneKey(t, key, pasted);
      if stop == NeedInput then Drain(u, rest', p) else Drained(u, rest', p, stop)
  }

  lemma {:induction false} DrainSuffix(t: Term, rest: seq<byte>, pasted: bool)
    requires t.InWidth() && t.histIndex >= -1
    ensures var d := Drain(t, rest, pasted);
            d.rest == rest[|rest| - |d.rest|..]
    decreases |rest|
  {
    hide OneKey, BytesToKey;
    var (key, rest') := BytesToKey(rest, t.paste);
    RestIsSuffix(rest, t.paste);
    if key != RUNE_ERROR {
      var (u, p, stop) := OneKey(t, key, pasted);
      if stop == NeedInput {
        DrainSuffix(u, rest', p);
      }
    }
  }

  function Flat(input: seq<seq<byte>>): seq<byte> {
    if input == [] then [] else input[0] + Flat(input[1..])
  }

  /** One Read into a buffer of `space` bytes: the bytes delivered and the script that remains. */
  function Read(input: seq<seq<byte>>, space: nat): (r: (seq<byte>, seq<seq<byte>>))
    requires input != []
    ensures |r.0| <= space
    ensures r.0 + Flat(r.1) == Flat(input)
    ensures |Flat(r.1)| + |r.0| == |Flat(input)|
    ensures |r.1| < |input| || (|r.1| == |input| && |r.0| == space)
  {
    if |input[0]| <= space then (input[0], input[1..])
    else
      var rest := [input[0][space..]] + input[1..];
      assert rest[1..] == input[1..];
      (input[0][..space], rest)
  }

  datatype Outcome = Line(line: seq<byte>, pasted: bool) | EndOfInput | ReadError | Stalled

  datatype Call = Call(t: Term, rem: seq<byte>, input: seq<seq<byte>>, outcome: Outcome)
  {
    function Unread(): nat { |rem| + |Flat(input)| }
  }

  function ReadLoop(t: Term, rem: seq<byte>, pasted: bool, input: seq<seq<byte>>): (c: Call)
    requires t.InWidth() && t.histIndex >= -1 && |rem| <= IN_BUF
    ensures c.t.InWidth() && c.t.histIndex >= -1 && |c.rem| <= IN_BUF
    ensures c.Unread() <= |rem| + |Flat(input)|
    ensures c.outcome.Line? || c.outcome.EndOfInput? ==> c.Unread() < |rem| + |Flat(input)|
    decreases |Flat(input)|, |input|
  {
    var d := Drain(t, rem, pasted);
    match d.stop
    case Finished(line) => Call(Record(d.t, line), d.rest, input, Line(line, d.pasted))
    case Eof => Call(d.t, d.rest, input, EndOfInput)
    case NeedInput =>
      if input == [] then Call(d.t, d.rest, input, ReadError)
      else if |d.rest| == IN_BUF then Call(d.t, d.rest, input, Stalled)
      else
        var (bytes, more) := Read(input, IN_BUF - |d.rest|);
        ReadLoop(d.t, d.rest + bytes, d.pasted, more)
  }

  /** One call of readLine on the bytes left over from the one before. */
  function ReadLine(t: Term, rem: seq<byte>, input: seq<seq<byte>>): (c: Call)
    requires t.InWidth() && t.histIndex >= -1 && |rem| <= IN_BUF
    ensures c.t.InWidth() && c.t.histIndex >= -1 && |c.rem| <= IN_BUF
    ensures c.outcome.Line? || c.outcome.EndOfInput? ==> c.Unread() < |rem| + |Flat(input)|
  {
    ReadLoop(ShowPrompt(t), rem, t.paste, input)
  }

  /** Successive calls until the input is used up. */
  datatype Session = Session(t: Term, rem: seq<byte>, events: seq<Outcome>, last: Outcome)

  function RunSession(t: Term, rem: seq<byte>, input: seq<seq<byte>>): Session
    requires t.InWidth() && t.histIndex >= -1 && |rem| <= IN_BUF
    decreases |rem| + |Flat(input)|
  {
    var c := ReadLine(t, rem, input);
    if c.outcome.Line? || c.outcome.EndOfInput? then
      var s := RunSession(c.t, c.rem, c.input);
      s.(events := [c.outcome] + s.events)
    else Session(c.t, c.rem, [], c.outcome)
  }

  // ---- The same reader on one undivided input ----

  datatype Pumped = Pumped(t: Term, rem: seq<byte>, events: seq<Outcome>)

  function Pump(t: Term, b: seq<byte>, pasted: bool): Pumped
    requires t.InWidth() && t.histIndex >= -1
    decreases |b|, 0
  {
    var (key, rest) := BytesToKey(b, t.paste);
    if key == RUNE_ERROR then Pumped(t, rest, [])
    else
      var (u, p, stop) := OneKey(t, key, pasted);
      match stop
      case NeedInput => Pump(u, rest, p)
      case Finished(line) => PumpNext(Line(line, p), Record(u, line), rest)
      case Eof => PumpNext(EndOfInput, u, rest)
  }

  /** An event, and then the call that follows it. */
  function PumpNext(event: Outcome, t: Term, rest: seq<byte>): Pumped
    requires t.InWidth() && t.histIndex >= -1
    decreases |rest|, 1
  {
    var p := Pump(ShowPrompt(t), rest, t.paste);
    p.(events := [event] + p.events)
  }

  /** What draining the first part of an input means for the whole of it. */
  ghost predicate DrainMeans(d: Drained, whole: Pumped, more: seq<byte>)
    requires d.t.InWidth() && d.t.histIndex >= -1
  {
    match d.stop
    case NeedInput => whole == Pump(d.t, d.rest + more, d.pasted)
    case Finished(line) => whole == PumpNext(Line(line, d.pasted), Record(d.t, line), d.rest + more)
    case Eof => whole == PumpNext(EndOfInput, d.t, d.rest + more)
  }

  lemma {:induction false} DrainExtend(t: Term, a: seq<byte>, pasted: bool, more: seq<byte>)
    requires t.InWidth() && t.histIndex >= -1
    requires Clean(a + more)
    ensures DrainMeans(Drain(t, a, pasted), Pump(t, a + more, pasted), more)
    ensures Clean(Drain(t, a, pasted).rest + more)
    decreases |a|
  {
    hide HandleKey, BytesToKey, OneKey, Clean, PumpNext;
    var (key, rest) := BytesToKey(a, t.paste);
    CleanPrefix(a, more);
    CleanKey(a, t.paste);
    if key != RUNE_ERROR {
      KeyPrefixStable(a, more, t.paste);
      CleanKey(a + more, t.paste);
      var (u, p, stop) := OneKey(t, key, pasted);
      if stop == NeedInput {
        DrainExtend(u, rest, p, more);
      }
    }
  }

  /** One call of readLine, in terms of the undivided input. */
  lemma {:induction false} LoopIsPump(t: Term, rem: seq<byte>, pasted: bool, input: seq<seq<byte>>)
    requires t.InWidth() && t.histIndex >= -1 && |rem| <= IN_BUF
    requires Clean(rem + Flat(input))
    ensures var c := ReadLoop(t, rem, pasted, input);
            var whole := Pump(t, rem + Flat(input), pasted);
            && (c.outcome.ReadError? ==> whole == Pumped(c.t, c.rem, []))
            && (c.outcome.Line? || c.outcome.EndOfInput? ==> whole == PumpNext(c.outcome, c.t, c.rem + Flat(c.input)))
            && Clean(c.rem + Flat(c.input))
    decreases |Flat(input)|, |input|
  {
    hide HandleKey, BytesToKey, Drain, Clean, PumpNext, Read;
    var d := Drain(t, rem, pasted);
    DrainExtend(t, rem, pasted, Flat(input));
    if d.stop == NeedInput {
      if input == [] {
        FlatNothing();
        assert d.rest + Flat(input) == d.rest;
        assert rem + Flat(input) == rem;
        DrainStuck(t, rem, pasted);
      } else if |d.rest| < IN_BUF {
        var (bytes, more) := Read(input, IN_BUF - |d.rest|);
        assert (d.rest + bytes) + Flat(more) == d.rest + Flat(input);
        LoopIsPump(d.t, d.rest + bytes, d.pasted, more);
      }
    }
  }

  lemma FlatNothing()
    ensures Flat([]) == []
  {
  }

  /** After draining a clean input the decoder is waiting on the very bytes that are left. */
  lemma {:induction false} DrainStuck(t: Term, b: seq<byte>, pasted: bool)
    requires t.InWidth() && t.histIndex >= -1 && Clean(b)
    ensures var d := Drain(t, b, pasted);
            && Clean(d.rest)
            && (d.stop == NeedInput ==> BytesToKey(d.rest, d.t.paste) == (RUNE_ERROR, d.rest))
    decreases |b|
  {
    hide HandleKey, BytesToKey, OneKey, Clean;
    var (key, rest) := BytesToKey(b, t.paste);
    CleanKey(b, t.paste);
    if key != RUNE_ERROR {
      var (u, p, stop) := OneKey(t, key, pasted);
      if stop == NeedInput {
        DrainStuck(u, rest, p);
      }
    }
  }

  // ---- No key fills the buffer ----

  predicate HasFinal(b: seq<byte>, lo: nat, hi: nat)
    requires lo <= hi <= |b|
  {
    exists j :: lo <= j < hi && IsFinal(b[j])
  }

  /** Every escape character is followed by a final byte before a buffer's length is over. */
  ghost predicate ShortEscapes(b: seq<byte>) {
    forall i: nat :: i + 256 <= |b| && b[i] == ESC ==> HasFinal(b, i, i + 256)
  }

  lemma ShortEscapesSuffix(b: seq<byte>, k: nat)
    requires k <= |b| && ShortEscapes(b)
    ensures ShortEscapes(b[k..])
  {
    var s := b[k..];
    forall i: nat | i + IN_BUF <= |s| && s[i] == ESC
      ensures HasFinal(s, i, i + IN_BUF)
    {
      assert b[i + k] == s[i];
      assert HasFinal(b, i + k, i + k + IN_BUF);
      var j :| i + k <= j < i + k + IN_BUF && IsFinal(b[j]);
      assert s[j - k] == b[j];
    }
  }

  lemma {:induction false} LoopDoesNotStall(t: Term, rem: seq<byte>, pasted: bool, input: seq<seq<byte>>)
    requires t.InWidth() && t.histIndex >= -1 && |rem| <= IN_BUF
    requires Clean(rem + Flat(input)) && ShortEscapes(rem + Flat(input))
    ensures var c := ReadLoop(t, rem, pasted, input);
            && !c.outcome.Stalled?
            && ShortEscapes(c.rem + Flat(c.input))
    decreases |Flat(input)|, |input|
  {
    hide HandleKey, BytesToKey, Drain, Clean, ShortEscapes, Read, HasFinal, Flat;
    var d := Drain(t, rem, pasted);
    DrainKeepsClean(t, rem, pasted, Flat(input));
    DrainKeepsShort(t, rem, pasted, Flat(input));
    if d.stop == NeedInput && input != [] {
      if |d.rest| == IN_BUF {
        DrainIsNotFull(t, rem, pasted, Flat(input));
      } else {
        var (bytes, more) := Read(input, IN_BUF - |d.rest|);
        assert (d.rest + bytes) + Flat(more) == d.rest + Flat(input);
        LoopDoesNotStall(d.t, d.rest + bytes, d.pasted, more);
      }
    }
  }

  lemma DrainKeepsClean(t: Term, a: seq<byte>, pasted: bool, more: seq<byte>)
    requires t.InWidth() && t.histIndex >= -1 && Clean(a + more)
    ensures Clean(Drain(t, a, pasted).rest + more)
  {
    DrainExtend(t, a, pasted, more);
  }

  lemma DrainKeepsShort(t: Term, a: seq<byte>, pasted: bool, more: seq<byte>)
    requires t.InWidth() && t.histIndex >= -1 && ShortEscapes(a + more)
    ensures ShortEscapes(Drain(t, a, pasted).rest + more)
  {
    hide Drain, ShortEscapes;
    var k := |a| - |Drain(t, a, pasted).rest|;
    DrainSuffix(t, a, pasted);
    ShortEscapesSuffix(a + more, k);
    assert (a + more)[k..] == a[k..] + more;
  }

  lemma DrainIsNotFull(t: Term, rem: seq<byte>, pasted: bool, more: seq<byte>)
    requires t.InWidth() && t.histIndex >= -1
    requires Clean(rem + more)
    requires Drain(t, rem, pasted).stop == NeedInput
    requires ShortEscapes(Drain(t, rem, pasted).rest + more)
    ensures |Drain(t, rem, pasted).rest| != IN_BUF
  {
    hide HandleKey, BytesToKey, Drain, Clean, ShortEscapes, HasFinal;
    var d := Drain(t, rem, pasted);
    CleanPrefix(rem, more);
    DrainStuck(t, rem, pasted);
    if |d.rest| == IN_BUF {
      WaitingShape(d.rest, d.t.paste);
      FullBufferHasNoFinal(d.rest, more);
    }
  }

  lemma FullBufferHasNoFinal(full: seq<byte>, more: seq<byte>)
    requires |full| == IN_BUF && full[0] == ESC
    requires forall i :: 0 <= i < |full| ==> !IsFinal(full[i])
    ensures !ShortEscapes(full + more)
  {
    var b := full + more;
    assert b[0] == ESC;
    assert forall j :: 0 <= j < IN_BUF ==> b[j] == full[j];
    assert !HasFinal(b, 0, 0 + IN_BUF);
  }

  /** A read of 256 bytes that is one unfinished escape sequence leaves no room for another read: the call stalls. */
  lemma FullEscapeStalls(t: Term, pasted: bool, full: seq<byte>, more: seq<seq<byte>>)
    requires t.InWidth() && t.histIndex >= -1 && |full| == 256 && full[0] == ESC && more != []
    requires forall i :: 0 <= i < |full| ==> !IsFinal(full[i])
    ensures ReadLoop(t, full, pasted, more).outcome == Stalled
  {
    hide Read, FirstFinal;
    assert BytesToKey(full, t.paste) == (RUNE_ERROR, full) by { NoFinalNoKey(full, t.paste); }
  }

  lemma NoFinalNoKey(b: seq<byte>, paste: bool)
    requires |b| >= 6 && b[0] == ESC && forall i :: 0 <= i < |b| ==> !IsFinal(b[i])
    ensures BytesToKey(b, paste) == (RUNE_ERROR, b)
  {
    assert b[2] == b[..6][2] && b[5] == b[..6][5];
    assert FirstFinal(b, 0) == |b|;
  }

  // ---- Chunking independence ----

  lemma {:induction false} SessionIsPump(t: Term, rem: seq<byte>, input: seq<seq<byte>>)
    requires t.InWidth() && t.histIndex >= -1 && |rem| <= IN_BUF
    requires Clean(rem + Flat(input)) && ShortEscapes(rem + Flat(input))
    ensures var s := RunSession(t, rem, input);
            && s.last.ReadError?
            && Pumped(s.t, s.rem, s.events) == Pump(ShowPrompt(t), rem + Flat(input), t.paste)
    decreases |rem| + |Flat(input)|
  {
    hide HandleKey, BytesToKey, Drain, Clean, ShortEscapes, Pump, ReadLoop;
    LoopIsPump(ShowPrompt(t), rem, t.paste, input);
    LoopDoesNotStall(ShowPrompt(t), rem, t.paste, input);
    var c := ReadLine(t, rem, input);
    if c.outcome.Line? || c.outcome.EndOfInput? {
      SessionIsPump(c.t, c.rem, c.input);
    }
  }

  /**
   The main result: for well-formed UTF-8 without U+FFFD and no escape sequence as long as the buffer,
   the lines, paste indications and end-of-input reports of successive calls, the state they leave and
   everything they queue for the screen depend on the input only, not on how reads divide it.
   */
  lemma ChunkingIndependence(t: Term, rem: seq<byte>, input: seq<seq<byte>>, other: seq<seq<byte>>)
    requires t.InWidth() && t.histIndex >= -1 && |rem| <= IN_BUF
    requires Flat(input) == Flat(other)
    requires var b := rem + Flat(input); Valid(b) && RUNE_ERROR !in Decode(b) && ShortEscapes(b)
    ensures RunSession(t, rem, input) == RunSession(t, rem, other)
    ensures RunSession(t, rem, input).last.ReadError?
  {
    hide RunSession, Pump, ShowPrompt, ShortEscapes;
    ValidIsClean(rem + Flat(input));
    SessionIsPump(t, rem, input);
    SessionIsPump(t, rem, other);
  }

  /**
   Why U+FFFD is excluded: it ends a drain early, so an Enter that arrives in the same read waits for
   another read, while an Enter that arrives in the next read ends the line.
   */
  lemma ReplacementRuneDelays(t: Term)
    requires t.InWidth() && t.histIndex >= -1
    ensures var together: seq<seq<byte>>, apart: seq<seq<byte>> := [[0xEF, 0xBF, 0xBD, 0x0D]], [[0xEF, 0xBF, 0xBD], [0x0D]];
            && Flat(together) == Flat(apart)
            && RunSession(t, [], together).events == []
            && RunSession(t, [], apart).events != []
  {
    hide ReadLoop, ShowPrompt, RunSession;
    var enter: seq<byte>, lost: seq<byte>, all: seq<byte> := [0x0D], [0xEF, 0xBF, 0xBD], [0xEF, 0xBF, 0xBD, 0x0D];
    assert [enter][1..] == [] && [all][1..] == [] && [lost, enter][1..] == [enter];
    assert Flat([enter]) == enter + Flat([]) == enter && Flat([all]) == all + Flat([]) == all;
    assert Flat([lost, enter]) == lost + enter == all;
    TogetherWaits(ShowPrompt(t), t.paste);
    ApartEnds(ShowPrompt(t), t.paste);
    SessionEvents(t, [all]);
    SessionEvents(t, [lost, enter]);
  }

  lemma SessionEvents(t: Term, input: seq<seq<byte>>)
    requires t.InWidth() && t.histIndex >= -1
    ensures var outcome := ReadLoop(ShowPrompt(t), [], t.paste, input).outcome;
            RunSession(t, [], input).events == [] <==> !outcome.Line? && !outcome.EndOfInput?
  {
    hide ReadLoop, ShowPrompt;
  }

  lemma TogetherWaits(t: Term, pasted: bool)
    requires t.InWidth() && t.histIndex >= -1
    ensures ReadLoop(t, [], pasted, [[0xEF, 0xBF, 0xBD, 0x0D]]).outcome == ReadError
  {
    hide BytesToKey, OneKey;
    var none: seq<seq<byte>> := [];
    ReplacementKeys(t.paste);
    LoopReads(t, pasted, [0xEF, 0xBF, 0xBD, 0x0D], none);
    assert [[0xEF, 0xBF, 0xBD, 0x0D]] + none == [[0xEF, 0xBF, 0xBD, 0x0D]];
  }

  lemma ApartEnds(t: Term, pasted: bool)
    requires t.InWidth() && t.histIndex >= -1
    ensures ReadLoop(t, [], pasted, [[0xEF, 0xBF, 0xBD], [0x0D]]).outcome.Line?
  {
    hide BytesToKey, EndLine, ReadLoop;
    var none: seq<seq<byte>> := [];
    ReplacementKeys(t.paste);
    LoopReads(t, pasted, [0xEF, 0xBF, 0xBD], [[0x0D]]);
    LostRead(t, pasted);
    LoopReads(t, pasted, [0x0D], none);
    assert [[0xEF, 0xBF, 0xBD]] + [[0x0D]] == [[0xEF, 0xBF, 0xBD], [0x0D]];
    assert [[0x0D]] + none == [[0x0D]];
    EnterRead(t, pasted);
  }

  lemma LostRead(t: Term, pasted: bool)
    requires t.InWidth() && t.histIndex >= -1
    ensures ReadLoop(t, [0xEF, 0xBF, 0xBD], pasted, [[0x0D]]) == ReadLoop(t, [], pasted, [[0x0D]])
  {
    hide BytesToKey, OneKey;
    ReplacementKeys(t.paste);
  }

  lemma EnterRead(t: Term, pasted: bool)
    requires t.InWidth() && t.histIndex >= -1
    ensures ReadLoop(t, [0x0D], pasted, []).outcome.Line?
  {
    hide BytesToKey, EndLine;
    ReplacementKeys(t.paste);
  }

  /** The bytes Drain hands to the decoder last. */
  function StoppedAt(t: Term, rest: seq<byte>, pasted: bool): seq<byte>
    requires t.InWidth() && t.histIndex >= -1
    decreases |rest|
  {
    var (key, rest') := BytesToKey(rest, t.paste);
    if key == RUNE_ERROR then rest
    else
      var (u, p, stop) := OneKey(t, key, pasted);
      if stop == NeedInput then StoppedAt(u, rest', p) else rest
  }

  /**
   On any input: a drain that asks for more leaves a key behind, which then waits for the next read, exactly when
   it stopped at a complete rune that decodes to U+FFFD, dropped it, and a key comes right behind it.
   */
  lemma {:induction false} DrainLeavesKey(t: Term, rest: seq<byte>, pasted: bool)
    requires t.InWidth() && t.histIndex >= -1
    requires Drain(t, rest, pasted).stop == NeedInput
    ensures var d, s := Drain(t, rest, pasted), StoppedAt(t, rest, pasted);
            && |s| <= |rest| && s == rest[|rest| - |s|..]
            && (BytesToKey(d.rest, d.t.paste).0 != RUNE_ERROR <==>
                  && s != [] && FullRune(s) && DecodeRune(s).0 == RUNE_ERROR
                  && BytesToKey(s[DecodeRune(s).1..], d.t.paste).0 != RUNE_ERROR)
    decreases |rest|
  {
    hide OneKey, FullRune, DecodeRune;
    var (key, rest') := BytesToKey(rest, t.paste);
    RestIsSuffix(rest, t.paste);
    if key == RUNE_ERROR {
      DropsExactly(rest, t.paste);
      if rest' != rest {
        DropsOneRune(rest, t.paste);
      }
    } else {
      var (u, p, stop) := OneKey(t, key, pasted);
      DrainLeavesKey(u, rest', p);
    }
  }

  lemma ReplacementKeys(paste: bool)
    ensures BytesToKey([0xEF, 0xBF, 0xBD, 0x0D], paste) == (RUNE_ERROR, [0x0D])
    ensures BytesToKey([0xEF, 0xBF, 0xBD], paste) == (RUNE_ERROR, [])
    ensures BytesToKey([0x0D], paste) == (KEY_ENTER, [])
    ensures BytesToKey([], paste) == (RUNE_ERROR, [])
  {
  }

  /** Nothing left over: the next read is drained on its own. */
  lemma LoopReads(t: Term, pasted: bool, first: seq<byte>, more: seq<seq<byte>>)
    requires t.InWidth() && t.histIndex >= -1 && |first| <= IN_BUF
    ensures ReadLoop(t, [], pasted, [first] + more) == ReadLoop(t, first, pasted, more)
  {
    hide Drain, HandleKey;
    var none: seq<byte> := [];
    DrainNothing(t, pasted);
    assert ([first] + more)[1..] == more;
    assert none + first == first;
  }

  lemma DrainNothing(t: Term, pasted: bool)
    requires t.InWidth() && t.histIndex >= -1
    ensures Drain(t, [], pasted) == Drained(t, [], pasted, NeedInput)
  {
  }

  // ---- What is left in the history ----

  /** handleKey leaves the history alone, and a key that ends no line is not recorded. */
  lemma KeyKeepsHistory(t: Term, key: Rune, pasted: bool)
    requires t.InWidth() && t.histIndex >= -1
    ensures var u := OneKey(t, key, pasted).0; u.history == t.history && u.echo == t.echo
  {
    hide HandleKey, Encode;
  }

  lemma {:induction false} DrainKeepsHistory(t: Term, rest: seq<byte>, pasted: bool)
    requires t.InWidth() && t.histIndex >= -1
    ensures var u := Drain(t, rest, pasted).t; u.history == t.history && u.echo == t.echo
    decreases |rest|
  {
    hide OneKey, BytesToKey;
    var (key, rest') := BytesToKey(rest, t.paste);
    if key != RUNE_ERROR {
      KeyKeepsHistory(t, key, pasted);
      var (u, p, stop) := OneKey(t, key, pasted);
      if stop == NeedInput {
        DrainKeepsHistory(u, rest', p);
      }
    }
  }

  /** What a call adds to the history: the line it returns, if there is one and echo is on. */
  function Added(echo: bool, outcome: Outcome): seq<seq<byte>> {
    if echo && outcome.Line? then [outcome.line] else []
  }

  lemma {:induction false} LoopHistory(t: Term, rem: seq<byte>, pasted: bool, input: seq<seq<byte>>)
    requires t.InWidth() && t.histIndex >= -1 && |rem| <= IN_BUF
    ensures var c := ReadLoop(t, rem, pasted, input);
            && c.t.history == t.history + Added(t.echo, c.outcome) && c.t.echo == t.echo
            && (t.echo && c.outcome.Line? ==> c.t.histIndex == -1)
    decreases |Flat(input)|, |input|
  {
    hide Drain, Read, Flat, BytesToKey;
    var d := Drain(t, rem, pasted);
    DrainKeepsHistory(t, rem, pasted);
    if d.stop == NeedInput && input != [] && |d.rest| < IN_BUF {
      var (bytes, more) := Read(input, IN_BUF - |d.rest|);
      LoopHistory(d.t, d.rest + bytes, d.pasted, more);
    }
  }

  /**
   readLine keeps the history: a line it returns with echo on is the newest entry from then on, and nothing else is
   added; with echo off nothing is. At the next prompt the first Up shows that line with the cursor at its end.
   */
  lemma LineIsRemembered(t: Term, rem: seq<byte>, input: seq<seq<byte>>)
    requires t.InWidth() && t.histIndex >= -1 && |rem| <= IN_BUF
    ensures var c := ReadLine(t, rem, input);
            && (t.echo && c.outcome.Line? ==>
                  && c.t.history == t.history + [c.outcome.line] && c.t.histIndex == -1
                  && (!c.t.paste ==>
                        var up := HandleKey(ShowPrompt(c.t), KEY_UP).0;
                        up.before == Decode(c.outcome.line) && up.after == []))
            && (!t.echo || !c.outcome.Line? ==> c.t.history == t.history)
  {
    hide ReadLoop, ShowPrompt, SetLine, Decode, Encode;
    LoopHistory(ShowPrompt(t), rem, t.paste, input);
    var c := ReadLine(t, rem, input);
    if t.echo && c.outcome.Line? && !c.t.paste {
      UpShowsNewest(ShowPrompt(c.t));
    }
  }

  lemma UpShowsNewest(t: Term)
    requires t.InWidth() && t.histIndex == -1 && !t.paste && t.history != []
    ensures var up := HandleKey(t, KEY_UP).0;
            up.before == Decode(t.history[|t.history| - 1]) && up.after == []
  {
    hide WriteLine, WriteSpaces, MoveCursorToPos, Decode, Encode;
  }

  /** The lines among the events of a session. */
  function LinesOf(events: seq<Outcome>): seq<seq<byte>> {
    if events == [] then []
    else (if events[0].Line? then [events[0].line] else []) + LinesOf(events[1..])
  }

  /** Over a session the history grows by exactly the lines returned, in order, and with echo off not at all. */
  lemma {:induction false} SessionIsRemembered(t: Term, rem: seq<byte>, input: seq<seq<byte>>)
    requires t.InWidth() && t.histIndex >= -1 && |rem| <= IN_BUF
    ensures var s := RunSession(t, rem, input);
            s.t.history == t.history + if t.echo then LinesOf(s.events) else []
    decreases |rem| + |Flat(input)|
  {
    hide ReadLine, Flat, Added;
    var c := ReadLine(t, rem, input);
    CallHistory(t, rem, input);
    if c.outcome.Line? || c.outcome.EndOfInput? {
      SessionIsRemembered(c.t, c.rem, c.input);
      LinesCons(t.history, t.echo, c.outcome, RunSession(c.t, c.rem, c.input).events);
    }
  }

  lemma CallHistory(t: Term, rem: seq<byte>, input: seq<seq<byte>>)
    requires t.InWidth() && t.histIndex >= -1 && |rem| <= IN_BUF
    ensures var c := ReadLine(t, rem, input);
            c.t.history == t.history + Added(t.echo, c.outcome) && c.t.echo == t.echo
    ensures !ReadLine(t, rem, input).outcome.Line? ==> Added(t.echo, ReadLine(t, rem, input).outcome) == []
  {
    hide ReadLoop, ShowPrompt;
    LoopHistory(ShowPrompt(t), rem, t.paste, input);
  }

  lemma LinesCons(history: seq<seq<byte>>, echo: bool, first: Outcome, events: seq<Outcome>)
    ensures history + Added(echo, first) + (if echo then LinesOf(events) else []) ==
            history + if echo then LinesOf([first] + events) else []
  {
    assert ([first] + events)[1..] == events;
  }

  // ---- The paste indication ----

  /** A key handed to the editor, and whether it came between paste start and paste end. */
  datatype Logged = Logged(key: Rune, inPaste: bool)

  function KeyLog(t: Term, key: Rune): seq<Logged> {
    if !t.paste && key == KEY_CTRL_D && t.Line() == [] then []
    else if !t.paste && key == KEY_PASTE_START then []
    else if t.paste && key == KEY_PASTE_END then []
    else [Logged(key, t.paste)]
  }

  /** The keys Drain hands to the editor. */
  function DrainLog(t: Term, rest: seq<byte>, pasted: bool): seq<Logged>
    requires t.InWidth() && t.histIndex >= -1
    decreases |rest|
  {
    var (key, rest') := BytesToKey(rest, t.paste);
    if key == RUNE_ERROR then []
    else
      var (u, p, stop) := OneKey(t, key, pasted);
      KeyLog(t, key) + (if stop == NeedInput then DrainLog(u, rest', p) else [])
  }

  function LoopLog(t: Term, rem: seq<byte>, pasted: bool, input: seq<seq<byte>>): seq<Logged>
    requires t.InWidth() && t.histIndex >= -1 && |rem| <= IN_BUF
    decreases |Flat(input)|, |input|
  {
    var d := Drain(t, rem, pasted);
    DrainLog(t, rem, pasted) +
    (if d.stop == NeedInput && input != [] && |d.rest| < IN_BUF then
       var (bytes, more) := Read(input, IN_BUF - |d.rest|);
       LoopLog(d.t, d.rest + bytes, d.pasted, more)
     else [])
  }

  // ---- ... told by the brackets alone ----

  predicate IsBracket(key: Rune) {
    key == KEY_PASTE_START || key == KEY_PASTE_END
  }

  /** Whether a paste is open after the keys: the last bracket decides. */
  function Open(open: bool, keys: seq<Rune>): bool
    decreases |keys|
  {
    if keys == [] then open
    else Open(ModeAfter(open, keys[0]), keys[1..])
  }

  /** The keys that are no brackets, each with whether it came inside a paste. */
  function Labelled(open: bool, keys: seq<Rune>): seq<Logged>
    decreases |keys|
  {
    if keys == [] then []
    else (if IsBracket(keys[0]) then [] else [Logged(keys[0], open)]) + Labelled(ModeAfter(open, keys[0]), keys[1..])
  }

  lemma {:induction false} OpenAppend(open: bool, a: seq<Rune>, b: seq<Rune>)
    ensures Open(open, a + b) == Open(Open(open, a), b)
    decreases |a|
  {
    if a == [] {
      assert a + b == b;
    } else {
      assert (a + b)[0] == a[0] && (a + b)[1..] == a[1..] + b;
      OpenAppend(ModeAfter(open, a[0]), a[1..], b);
    }
  }

  lemma {:induction false} LabelledAppend(open: bool, a: seq<Rune>, b: seq<Rune>)
    ensures Labelled(open, a + b) == Labelled(open, a) + Labelled(Open(open, a), b)
    decreases |a|
  {
    if a == [] {
      assert a + b == b;
    } else {
      assert (a + b)[0] == a[0] && (a + b)[1..] == a[1..] + b;
      LabelledAppend(ModeAfter(open, a[0]), a[1..], b);
    }
  }

  /** All keys Drain decodes and acts on, brackets included. */
  function DrainStream(t: Term, rest: seq<byte>, pasted: bool): seq<Rune>
    requires t.InWidth() && t.histIndex >= -1
    decreases |rest|
  {
    var (key, rest') := BytesToKey(rest, t.paste);
    if key == RUNE_ERROR then []
    else
      var (u, p, stop) := OneKey(t, key, pasted);
      if stop == Eof then []
      else [key] + (if stop == NeedInput then DrainStream(u, rest', p) else [])
  }

  function LoopStream(t: Term, rem: seq<byte>, pasted: bool, input: seq<seq<byte>>): seq<Rune>
    requires t.InWidth() && t.histIndex >= -1 && |rem| <= IN_BUF
    decreases |Flat(input)|, |input|
  {
    var d := Drain(t, rem, pasted);
    DrainStream(t, rem, pasted) +
    (if d.stop == NeedInput && input != [] && |d.rest| < IN_BUF then
       var (bytes, more) := Read(input, IN_BUF - |d.rest|);
       LoopStream(d.t, d.rest + bytes, d.pasted, more)
     else [])
  }

  /** All keys one call of readLine decodes and acts on. */
  function LineStream(t: Term, rem: seq<byte>, input: seq<seq<byte>>): seq<Rune>
    requires t.InWidth() && t.histIndex >= -1 && |rem| <= IN_BUF
  {
    LoopStream(ShowPrompt(t), rem, t.paste, input)
  }

  /** One key: the mode it leaves, and how it is logged. */
  lemma OneKeyLabel(t: Term, key: Rune, pasted: bool)
    requires t.InWidth() && t.histIndex >= -1
    requires (key == KEY_PASTE_START ==> !t.paste) && (key == KEY_PASTE_END ==> t.paste)
    ensures var (u, p, stop) := OneKey(t, key, pasted);
            if stop == Eof then KeyLog(t, key) == [] && u.paste == t.paste
            else u.paste == Open(t.paste, [key]) && KeyLog(t, key) == Labelled(t.paste, [key])
  {
    hide HandleKey, Encode;
    HandleKeyEnds(t, key);
    assert [key][1..] == [];
  }

  lemma {:induction false} DrainLabels(t: Term, rest: seq<byte>, pasted: bool)
    requires t.InWidth() && t.histIndex >= -1
    ensures var keys := DrainStream(t, rest, pasted);
            && Drain(t, rest, pasted).t.paste == Open(t.paste, keys)
            && DrainLog(t, rest, pasted) == Labelled(t.paste, keys)
    decreases |rest|
  {
    hide OneKey, BytesToKey, KeyLog;
    var (key, rest') := BytesToKey(rest, t.paste);
    if key != RUNE_ERROR {
      BracketMode(rest, t.paste);
      OneKeyLabel(t, key, pasted);
      var (u, p, stop) := OneKey(t, key, pasted);
      if stop == NeedInput {
        DrainLabels(u, rest', p);
        OpenAppend(t.paste, [key], DrainStream(u, rest', p));
        LabelledAppend(t.paste, [key], DrainStream(u, rest', p));
      }
    }
  }

  lemma {:induction false} LoopLabels(t: Term, rem: seq<byte>, pasted: bool, input: seq<seq<byte>>)
    requires t.InWidth() && t.histIndex >= -1 && |rem| <= IN_BUF
    ensures var keys := LoopStream(t, rem, pasted, input);
            && ReadLoop(t, rem, pasted, input).t.paste == Open(t.paste, keys)
            && LoopLog(t, rem, pasted, input) == Labelled(t.paste, keys)
    decreases |Flat(input)|, |input|
  {
    hide Drain, DrainLog, DrainStream, Labelled, Open, Read, Flat, BytesToKey;
    var d := Drain(t, rem, pasted);
    DrainLabels(t, rem, pasted);
    if d.stop == NeedInput && input != [] && |d.rest| < IN_BUF {
      var (bytes, more) := Read(input, IN_BUF - |d.rest|);
      LoopLabels(d.t, d.rest + bytes, d.pasted, more);
      OpenAppend(t.paste, DrainStream(t, rem, pasted), LoopStream(d.t, d.rest + bytes, d.pasted, more));
      LabelledAppend(t.paste, DrainStream(t, rem, pasted), LoopStream(d.t, d.rest + bytes, d.pasted, more));
    } else {
      assert DrainStream(t, rem, pasted) + [] == DrainStream(t, rem, pasted);
      assert DrainLog(t, rem, pasted) + [] == DrainLog(t, rem, pasted);
    }
  }

  predicate AllPasted(log: seq<Logged>) {
    forall i :: 0 <= i < |log| ==> log[i].inPaste
  }

  function Keys(log: seq<Logged>): (ks: seq<Rune>)
    ensures |ks| == |log|
    ensures forall i :: 0 <= i < |log| ==> ks[i] == log[i].key
  {
    seq(|log|, i requires 0 <= i < |log| => log[i].key)
  }

  /** The line consists of the keys from `cut` on, all pasted. */
  predicate PastedFrom(t: Term, log: seq<Logged>, cut: nat) {
    cut <= |log| && AllPasted(log[cut..]) && t.before == Keys(log[cut..]) && t.after == []
  }

  ghost predicate PasteInv(t: Term, pasted: bool, log: seq<Logged>) {
    && (pasted ==> exists cut: nat :: PastedFrom(t, log, cut))
    && (AllPasted(log) && (t.paste || log != []) ==> pasted)
    && (log == [] ==> t.Line() == [])
  }

  /** What the indication says about a finished line whose keys were `log`. */
  ghost predicate PasteSound(line: seq<byte>, pasted: bool, log: seq<Logged>) {
    && (pasted ==> exists cut: nat :: cut < |log| && AllPasted(log[cut..]) && line == Encode(Keys(log[cut..|log| - 1])))
    && (AllPasted(log) ==> pasted)
  }

  /** How handleKey ends a line, and what it does to one inside a paste. */
  lemma HandleKeyEnds(t: Term, key: Rune)
    requires t.InWidth() && t.histIndex >= -1
    ensures var (u, line) := HandleKey(t, key);
            && (line.Some? <==> key == KEY_ENTER || (key == KEY_CTRL_C && !t.paste))
            && (line.Some? ==> u.Line() == [])
            && (key == KEY_ENTER ==> line == Some(Encode(t.Line())))
            && (key == KEY_CTRL_C && !t.paste ==> line == Some([]))
            && (t.paste && key != KEY_ENTER ==> u.before == t.before + [key] && u.after == t.after)
            && u.paste == t.paste
  {
    hide Erase, MoveTo, ClearScreen, TypeKey, BlankOut, MoveCursorToPos, WordLeft, WordRight, Decode, Encode,
         SetLine, WriteLine, HistoryUp, HistoryDown;
  }

  lemma NothingPasted()
    ensures AllPasted([]) && Keys([]) == []
  {
  }

  lemma AllPastedGrows(log: seq<Logged>, last: Logged)
    ensures AllPasted(log + [last]) <==> AllPasted(log) && last.inPaste
  {
    var grown := log + [last];
    assert grown[|log|] == last && forall i :: 0 <= i < |log| ==> grown[i] == log[i];
  }

  lemma PastedGrows(log: seq<Logged>, key: Rune, cut: nat)
    requires cut <= |log| && AllPasted(log[cut..])
    ensures var grown := log + [Logged(key, true)];
            && grown[cut..|grown| - 1] == log[cut..]
            && AllPasted(grown[cut..]) && Keys(grown[cut..]) == Keys(log[cut..]) + [key]
  {
    var grown := log + [Logged(key, true)];
    assert grown[cut..] == log[cut..] + [Logged(key, true)];
  }

  /** A bracket, or the end-of-input key: nothing is typed. */
  lemma BracketPaste(t: Term, key: Rune, pasted: bool, log: seq<Logged>)
    requires t.InWidth() && t.histIndex >= -1 && PasteInv(t, pasted, log) && KeyLog(t, key) == []
    ensures var (u, p, stop) := OneKey(t, key, pasted);
            && !stop.Finished?
            && (stop == NeedInput ==> PasteInv(u, p, log))
            && (stop == Eof ==> u.Line() == [])
  {
    hide HandleKey, Encode, Keys, AllPasted;
    var (u, p, stop) := OneKey(t, key, pasted);
    NothingPasted();
    if key == KEY_PASTE_START && t.Line() == [] {
      assert log[|log|..] == [];
      assert PastedFrom(u, log, |log|);
    } else if pasted {
      var cut: nat :| PastedFrom(t, log, cut);
      assert PastedFrom(u, log, cut);
    }
  }

  lemma TypedPaste(t: Term, key: Rune, pasted: bool, log: seq<Logged>)
    requires t.InWidth() && t.histIndex >= -1 && PasteInv(t, pasted, log) && KeyLog(t, key) != []
    ensures var (u, p, stop) := OneKey(t, key, pasted);
            var log' := log + [Logged(key, t.paste)];
            match stop
            case NeedInput => PasteInv(u, p, log')
            case Finished(line) => PasteSound(line, p, log') && u.Line() == []
            case Eof => u.Line() == []
  {
    hide HandleKey, Encode, Keys, AllPasted;
    HandleKeyEnds(t, key);
    var (u, p, stop) := OneKey(t, key, pasted);
    AllPastedGrows(log, Logged(key, t.paste));
    if p {
      var cut: nat :| PastedFrom(t, log, cut);
      PastedGrows(log, key, cut);
      if key == KEY_ENTER {
        assert t.Line() == t.before;
      } else {
        assert PastedFrom(u, log + [Logged(key, true)], cut);
      }
    }
  }

  lemma OneKeyPaste(t: Term, key: Rune, pasted: bool, log: seq<Logged>)
    requires t.InWidth() && t.histIndex >= -1 && PasteInv(t, pasted, log)
    ensures var (u, p, stop) := OneKey(t, key, pasted);
            var log' := log + KeyLog(t, key);
            match stop
            case NeedInput => PasteInv(u, p, log')
            case Finished(line) => PasteSound(line, p, log') && u.Line() == []
            case Eof => u.Line() == []
  {
    hide OneKey, PasteInv, PasteSound;
    if KeyLog(t, key) == [] {
      assert log + [] == log;
      BracketPaste(t, key, pasted, log);
    } else {
      TypedPaste(t, key, pasted, log);
    }
  }

  lemma {:induction false} DrainPaste(t: Term, rest: seq<byte>, pasted: bool, log: seq<Logged>)
    requires t.InWidth() && t.histIndex >= -1 && PasteInv(t, pasted, log)
    ensures var d := Drain(t, rest, pasted);
            var log' := log + DrainLog(t, rest, pasted);
            match d.stop
            case NeedInput => PasteInv(d.t, d.pasted, log')
            case Finished(line) => PasteSound(line, d.pasted, log') && d.t.Line() == []
            case Eof => d.t.Line() == []
    decreases |rest|
  {
    hide OneKey, BytesToKey, PasteInv, PasteSound, KeyLog;
    var (key, rest') := BytesToKey(rest, t.paste);
    if key == RUNE_ERROR {
      assert log + [] == log;
    } else {
      var (u, p, stop) := OneKey(t, key, pasted);
      OneKeyPaste(t, key, pasted, log);
      var log' := log + KeyLog(t, key);
      if stop == NeedInput {
        DrainPaste(u, rest', p, log');
        assert log' + DrainLog(u, rest', p) == log + DrainLog(t, rest, pasted);
      } else {
        assert log' == log + DrainLog(t, rest, pasted);
      }
    }
  }

  lemma {:induction false} LoopPaste(t: Term, rem: seq<byte>, pasted: bool, input: seq<seq<byte>>, log: seq<Logged>)
    requires t.InWidth() && t.histIndex >= -1 && |rem| <= IN_BUF && PasteInv(t, pasted, log)
    ensures var c := ReadLoop(t, rem, pasted, input);
            var log' := log + LoopLog(t, rem, pasted, input);
            && (c.outcome.Line? ==> PasteSound(c.outcome.line, c.outcome.pasted, log'))
            && (c.outcome.Line? || c.outcome.EndOfInput? ==> c.t.Line() == [])
    decreases |Flat(input)|, |input|
  {
    hide Drain, DrainLog, PasteInv, PasteSound, Read, Flat, BytesToKey;
    var d := Drain(t, rem, pasted);
    DrainPaste(t, rem, pasted, log);
    var log' := log + DrainLog(t, rem, pasted);
    if d.stop == NeedInput && input != [] && |d.rest| < IN_BUF {
      var (bytes, more) := Read(input, IN_BUF - |d.rest|);
      LoopPaste(d.t, d.rest + bytes, d.pasted, more, log');
      assert log' + LoopLog(d.t, d.rest + bytes, d.pasted, more) == log + LoopLog(t, rem, pasted, input);
    } else {
      assert log' == log + LoopLog(t, rem, pasted, input);
    }
  }

  /**
   On any input whatever: the keys of a call, labelled by the paste brackets among them, decide its paste indication.
   A call that starts on an empty line, as every call does unless a read failed in the middle of one, reports
   ErrPasteIndicator only if the line is exactly what keys arriving inside a paste spell, its end included, and always
   if all keys of the call arrived so. It leaves an empty line, and the paste open or not as its brackets say.
   */
  lemma PasteIndicator(t: Term, rem: seq<byte>, input: seq<seq<byte>>)
    requires t.InWidth() && t.histIndex >= -1 && |rem| <= IN_BUF && t.Line() == []
    ensures var c, keys := ReadLine(t, rem, input), LineStream(t, rem, input);
            && (c.outcome.Line? ==> PasteSound(c.outcome.line, c.outcome.pasted, Labelled(t.paste, keys)))
            && (c.outcome.Line? || c.outcome.EndOfInput? ==> c.t.Line() == [])
            && c.t.paste == Open(t.paste, keys)
  {
    hide ReadLoop, LoopLog, LoopStream, Labelled, Open, PasteSound, ShowPrompt;
    var u := ShowPrompt(t);
    assert t.before == [] && t.after == [];
    assert Keys([]) == [];
    assert PastedFrom(u, [], 0);
    assert u.Line() == [];
    LoopPaste(u, rem, t.paste, input, []);
    LoopLabels(u, rem, t.paste, input);
    assert [] + LoopLog(u, rem, t.paste, input) == LoopLog(u, rem, t.paste, input);
  }
}
