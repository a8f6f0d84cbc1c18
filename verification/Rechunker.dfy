/** The re-chunker of the session bridge: server output cut so that runes are not torn apart. */
module Rechunker {
  import opened Utf8

  const MAX_READ := 1024

  /** The decoding loop: whole runes go out; up to three bytes that decode to U+FFFD stay behind. */
  function Split(b: seq<byte>): (r: (seq<byte>, seq<byte>))
    ensures r.0 + r.1 == b && |r.1| <= 3
    decreases |b|
  {
    if b == [] then ([], [])
    else
      var (r, size) := DecodeRune(b);
      if r == RUNE_ERROR && |b| <= 3 then ([], b)
      else
        var (valid, remain) := Split(b[size..]);
        assert b[..size] + (valid + remain) == (b[..size] + valid) + remain;
        (b[..size] + valid, remain)
  }

  /** A read that is not full, with nothing pending, is passed on as it is. */
  predicate Bypass(buffer: seq<byte>, read: seq<byte>) {
    buffer == [] && |read| != MAX_READ
  }

  function OnRead(buffer: seq<byte>, read: seq<byte>): (r: (seq<byte>, seq<byte>))
    ensures r.0 + r.1 == buffer + read && |r.1| <= 3
  {
    if Bypass(buffer, read) then (read, []) else Split(buffer + read)
  }

  class Rechunker {
    var buffer: seq<byte>

    constructor ()
      ensures buffer == []
    {
      buffer := [];
    }

    /** The body of the read loop for nr > 0, up to the send. */
    method Next(read: seq<byte>) returns (validBytes: seq<byte>)
      modifies this
      ensures (validBytes, buffer) == OnRead(old(buffer), read)
      ensures validBytes + buffer == old(buffer) + read && |buffer| <= 3
    {
      validBytes := read;
      var bufferLen := |buffer|;
      if bufferLen > 0 || |read| == MAX_READ {
        buffer := buffer + read;
        validBytes := [];
      }
      ghost var all, first := buffer, validBytes;
      var remainBytes := buffer;
      while |remainBytes| > 0
        invariant first + Split(all).0 == validBytes + Split(remainBytes).0
        invariant Split(all).1 == Split(remainBytes).1
        decreases |remainBytes|
      {
        var (r, size) := DecodeRune(remainBytes);
        if r == RUNE_ERROR {
          if |remainBytes| <= 3 {
            break;
          }
        }
        assert validBytes + (remainBytes[..size] + Split(remainBytes[size..]).0) ==
               (validBytes + remainBytes[..size]) + Split(remainBytes[size..]).0;
        validBytes := validBytes + remainBytes[..size];
        remainBytes := remainBytes[size..];
      }
      assert Split(remainBytes) == ([], remainBytes);
      assert validBytes + [] == validBytes && [] + Split(all).0 == Split(all).0 && first + [] == first;
      buffer := [];
      if |remainBytes| > 0 {
        buffer := buffer + remainBytes;
      }
    }
  }

  // ---- Whole runs ----

  function Concat(bs: seq<seq<byte>>): seq<byte> {
    if bs == [] then [] else Concat(bs[..|bs| - 1]) + bs[|bs| - 1]
  }

  /** The chunks sent for a sequence of reads, and what is buffered after the last. */
  function Run(rs: seq<seq<byte>>): (r: (seq<seq<byte>>, seq<byte>))
    ensures |r.0| == |rs|
  {
    if rs == [] then ([], [])
    else
      var (chunks, buffer) := Run(rs[..|rs| - 1]);
      var (chunk, buffer') := OnRead(buffer, rs[|rs| - 1]);
      (chunks + [chunk], buffer')
  }

  lemma ConcatSnoc(bs: seq<seq<byte>>, b: seq<byte>)
    ensures Concat(bs + [b]) == Concat(bs) + b
  {
    assert (bs + [b])[..|bs|] == bs;
  }

  /** Nothing is lost, added or reordered, and at most three bytes wait. */
  lemma {:induction false} Conservation(rs: seq<seq<byte>>)
    ensures var (chunks, buffer) := Run(rs);
            Concat(chunks) + buffer == Concat(rs) && |buffer| <= 3
  {
    hide OnRead;
    if rs != [] {
      var init, last := rs[..|rs| - 1], rs[|rs| - 1];
      Conservation(init);
      var (chunks, buffer) := Run(init);
      var (chunk, buffer') := OnRead(buffer, last);
      ConcatSnoc(chunks, chunk);
      assert (Concat(chunks) + chunk) + buffer' == Concat(chunks) + (buffer + last);
    }
  }

  /** From a rune boundary of a well-formed stream on, only whole runes are let through. */
  lemma {:induction false} SplitWellFormed(b: seq<byte>, tail: seq<byte>)
    requires Valid(b + tail)
    ensures Valid(Split(b).0)
    decreases |b|
  {
    hide RuneLen, RuneValue;
    if b != [] {
      var s := b + tail;
      var n := RuneLen(s);
      HeadOfWellFormed(b, tail);
      if DecodeRune(b).0 != RUNE_ERROR || |b| > 3 {
        assert s[n..] == b[n..] + tail;
        SplitWellFormed(b[n..], tail);
        PrependRune(b, Split(b[n..]).0);
      }
    }
  }

  /** A torn rune is at most three bytes, so it is the last thing there is. */
  lemma HeadOfWellFormed(b: seq<byte>, tail: seq<byte>)
    requires b != [] && RuneLen(b + tail) > 0
    ensures RuneLen(b) == RuneLen(b + tail) || (RuneLen(b) == 0 && |b| <= 3 && DecodeRune(b).0 == RUNE_ERROR)
    ensures RuneLen(b) > 0 ==> DecodeRune(b) == (RuneValue(b), RuneLen(b))
  {
    if RuneLen(b) > 0 {
      RuneLenExtend(b, tail);
    } else {
      assert forall i :: 0 <= i < |b| ==> (b + tail)[i] == b[i];
    }
  }

  lemma PrependRune(b: seq<byte>, v: seq<byte>)
    requires RuneLen(b) > 0 && Valid(v)
    ensures Valid(b[..RuneLen(b)] + v)
  {
    var n := RuneLen(b);
    RuneLenRestrict(b, n);
    assert Valid(b[..n]) by { assert b[..n][n..] == []; }
    SplitValid(b[..n], v);
  }

  predicate AllValid(chunks: seq<seq<byte>>) {
    forall i :: 0 <= i < |chunks| ==> Valid(chunks[i])
  }

  /** Every read that finds nothing pending and is not 1024 bytes long ends where a rune ends. */
  ghost predicate ShortReadsEndWhole(rs: seq<seq<byte>>) {
    forall i :: 0 <= i < |rs| && Run(rs[..i]).1 == [] && |rs[i]| != 1024 ==> Valid(Concat(rs[..i + 1]))
  }

  lemma ShortReadsSnoc(rs: seq<seq<byte>>)
    requires rs != []
    ensures var init, last := rs[..|rs| - 1], rs[|rs| - 1];
            ShortReadsEndWhole(rs) <==>
              ShortReadsEndWhole(init) && (Run(init).1 == [] && |last| != 1024 ==> Valid(Concat(rs)))
  {
    hide Valid, Concat, Run;
    var init, last := rs[..|rs| - 1], rs[|rs| - 1];
    assert forall i :: 0 <= i <= |init| ==> init[..i] == rs[..i];
    assert rs[..|init| + 1] == rs;
    if ShortReadsEndWhole(rs) {
      assert Run(rs[..|init|]).1 == [] && |rs[|init|]| != 1024 ==> Valid(Concat(rs[..|init| + 1]));
      forall i | 0 <= i < |init| && Run(init[..i]).1 == [] && |init[i]| != 1024
        ensures Valid(Concat(init[..i + 1]))
      {
        assert Run(rs[..i]).1 == [] && |rs[i]| != 1024 ==> Valid(Concat(rs[..i + 1]));
      }
    } else {
      var i :| 0 <= i < |rs| && Run(rs[..i]).1 == [] && |rs[i]| != 1024 && !Valid(Concat(rs[..i + 1]));
      if i < |init| {
        assert Run(init[..i]).1 == [] && |init[i]| != 1024 && !Valid(Concat(init[..i + 1]));
      }
    }
  }

  lemma AllValidSnoc(chunks: seq<seq<byte>>, chunk: seq<byte>)
    ensures AllValid(chunks + [chunk]) <==> AllValid(chunks) && Valid(chunk)
  {
    hide Valid;
    var all := chunks + [chunk];
    assert all[|chunks|] == chunk;
    assert forall i :: 0 <= i < |chunks| ==> all[i] == chunks[i];
  }

  lemma {:induction false} AllValidConcat(chunks: seq<seq<byte>>)
    requires AllValid(chunks)
    ensures Valid(Concat(chunks))
  {
    hide Valid;
    if chunks == [] {
      ValidNothing();
    } else {
      AllValidConcat(chunks[..|chunks| - 1]);
      SplitValid(Concat(chunks[..|chunks| - 1]), chunks[|chunks| - 1]);
    }
  }

  /**
   On a stream that continues to well-formed UTF-8 (section 4 of RFC 3629), all chunks sent are well-formed
   exactly when every read that finds nothing pending and is not 1024 bytes long ends on a rune boundary.
   */
  lemma {:induction false} ChunksWellFormed(rs: seq<seq<byte>>, tail: seq<byte>)
    requires Valid(Concat(rs) + tail)
    ensures AllValid(Run(rs).0) <==> ShortReadsEndWhole(rs)
    decreases |rs|
  {
    hide Valid, OnRead, AllValid, ShortReadsEndWhole;
    if rs == [] {
      assert ShortReadsEndWhole([]) by { NoReads(); }
      assert AllValid([]) by { NoneInvalid(); }
    } else {
      var init, last := rs[..|rs| - 1], rs[|rs| - 1];
      var (chunks, buffer) := Run(init);
      assert Concat(rs) + tail == Concat(init) + (last + tail);
      ChunksWellFormed(init, last + tail);
      AllValidSnoc(chunks, OnRead(buffer, last).0);
      ShortReadsSnoc(rs);
      if AllValid(chunks) {
        LastChunk(init, last, tail);
      }
    }
  }

  lemma NoReads()
    ensures ShortReadsEndWhole([])
  {
  }

  lemma NoneInvalid()
    ensures AllValid([])
  {
  }

  lemma LastChunk(init: seq<seq<byte>>, last: seq<byte>, tail: seq<byte>)
    requires Valid(Concat(init) + last + tail) && AllValid(Run(init).0)
    ensures var buffer := Run(init).1;
            Valid(OnRead(buffer, last).0) <==> (buffer == [] && |last| != 1024 ==> Valid(Concat(init) + last))
  {
    hide Valid, OnRead, AllValid, Run, Concat;
    var (chunks, buffer) := Run(init);
    AllValidConcat(chunks);
    Conservation(init);
    assert Concat(init) + last + tail == Concat(chunks) + (buffer + last + tail);
    SplitValid(Concat(chunks), buffer + last + tail);
    OnReadWellFormed(buffer, last, tail);
    if buffer == [] && |last| != 1024 {
      ShortReadIsSent(buffer, last);
      assert Concat(chunks) + buffer == Concat(chunks);
      SplitValid(Concat(chunks), last);
    }
  }

  lemma OnReadWellFormed(buffer: seq<byte>, read: seq<byte>, tail: seq<byte>)
    requires Valid(buffer + read + tail)
    ensures (buffer == [] && |read| != 1024) || Valid(OnRead(buffer, read).0)
  {
    SplitWellFormed(buffer + read, tail);
  }

  lemma ShortReadIsSent(buffer: seq<byte>, read: seq<byte>)
    requires buffer == [] && |read| != 1024
    ensures OnRead(buffer, read) == (read, [])
  {
  }

  // ---- One read at a time ----

  /** The run up to a read, and the read. */
  lemma {:induction false} RunUpTo(rs: seq<seq<byte>>, i: nat)
    requires i < |rs|
    ensures Run(rs).0[..i] == Run(rs[..i]).0
    ensures OnRead(Run(rs[..i]).1, rs[i]) == (Run(rs).0[i], Run(rs[..i + 1]).1)
    decreases |rs|
  {
    hide OnRead;
    var init := rs[..|rs| - 1];
    if i < |init| {
      RunUpTo(init, i);
      assert init[..i] == rs[..i] && init[..i + 1] == rs[..i + 1];
      assert Run(rs).0[..i] == Run(init).0[..i];
    } else {
      assert rs[..i + 1] == rs;
    }
  }

  lemma {:induction false} ConcatSplit(rs: seq<seq<byte>>, i: nat) returns (rest: seq<byte>)
    requires i < |rs|
    ensures Concat(rs) == Concat(rs[..i]) + rs[i] + rest
    decreases |rs|
  {
    var init := rs[..|rs| - 1];
    if i < |init| {
      var more := ConcatSplit(init, i);
      assert init[..i] == rs[..i];
      rest := more + rs[|rs| - 1];
    } else {
      rest := [];
      assert rs[..i] == init;
    }
  }

  /** What the re-chunker works on in a read continues to well-formed text if the chunks before were whole. */
  lemma ReadOnBoundary(rs: seq<seq<byte>>, tail: seq<byte>, i: nat) returns (more: seq<byte>)
    requires Valid(Concat(rs) + tail) && i < |rs| && AllValid(Run(rs).0[..i])
    ensures Valid(Run(rs[..i]).1 + rs[i] + more)
  {
    hide Valid, Run, Concat, AllValid;
    var rest := ConcatSplit(rs, i);
    more := rest + tail;
    RunUpTo(rs, i);
    Conservation(rs[..i]);
    var (chunks, buffer) := Run(rs[..i]);
    AllValidConcat(chunks);
    assert Concat(rs) + tail == Concat(chunks) + (buffer + rs[i] + more);
    SplitValid(Concat(chunks), buffer + rs[i] + more);
  }

  /**
   A read that finds bytes pending, or is 1024 bytes long, never tears a rune: its chunk is well-formed whenever
   those before it are.
   */
  lemma BufferedChunkIsWhole(rs: seq<seq<byte>>, tail: seq<byte>, i: nat)
    requires Valid(Concat(rs) + tail) && i < |rs| && AllValid(Run(rs).0[..i])
    requires Run(rs[..i]).1 != [] || |rs[i]| == 1024
    ensures Valid(Run(rs).0[i])
  {
    hide Valid, Run, Concat, AllValid, OnRead;
    var more := ReadOnBoundary(rs, tail, i);
    RunUpTo(rs, i);
    OnReadWellFormed(Run(rs[..i]).1, rs[i], more);
  }

  const REPLACEMENT: seq<byte> := [0xEF, 0xBF, 0xBD]

  predicate EndsInReplacement(b: seq<byte>) {
    |b| >= 3 && b[|b| - 3..] == REPLACEMENT
  }

  /** What stays behind is nothing, the beginning of a rune, or U+FFFD, which the loop takes for one. */
  lemma {:induction false} SplitLeaves(b: seq<byte>, tail: seq<byte>)
    requires Valid(b + tail)
    ensures var left := Split(b).1;
            && (left == [] || !FullRune(left) || left == REPLACEMENT)
            && (left == REPLACEMENT <==> EndsInReplacement(b))
    decreases |b|
  {
    hide RuneValue;
    if b != [] {
      var n := RuneLen(b + tail);
      HeadOfWellFormed(b, tail);
      if RuneLen(b) == 0 {
        BeginningIsNotFull(b, tail);
      } else if DecodeRune(b).0 == RUNE_ERROR && |b| <= 3 {
        ReplacementBytes(b);
      } else {
        assert (b + tail)[n..] == b[n..] + tail;
        SplitLeaves(b[n..], tail);
        EndsBehind(b);
      }
    }
  }

  lemma BeginningIsNotFull(b: seq<byte>, tail: seq<byte>)
    requires b != [] && RuneLen(b) == 0 && RuneLen(b + tail) > 0
    ensures !FullRune(b) && b != REPLACEMENT
  {
    assert forall i :: 0 <= i < |b| ==> (b + tail)[i] == b[i];
  }

  lemma ReplacementBytes(b: seq<byte>)
    requires RuneLen(b) > 0 && RuneValue(b) == RUNE_ERROR && |b| <= 3
    ensures b == REPLACEMENT
  {
    DecodeRuneEncodes(b);
    assert EncodeRune(RUNE_ERROR) == REPLACEMENT;
  }

  /** U+FFFD does not begin inside another rune. */
  lemma InsideIsNoReplacement(b: seq<byte>)
    requires RuneLen(b) > |b| - 3 >= 0 && (RuneValue(b) != RUNE_ERROR || |b| > 3)
    ensures !EndsInReplacement(b)
  {
    InsideIsTail(b);
    assert b[|b| - 3] == b[|b| - 3..][0];
    if |b| == 3 {
      assert b[0..] == b;
      assert RuneValue(REPLACEMENT) == RUNE_ERROR;
    }
  }

  /** Behind a rune that is not all there is, the end is as before. */
  lemma EndsBehind(b: seq<byte>)
    requires RuneLen(b) > 0 && (RuneValue(b) != RUNE_ERROR || |b| > 3)
    ensures EndsInReplacement(b[RuneLen(b)..]) <==> EndsInReplacement(b)
  {
    var n := RuneLen(b);
    InsideIsTail(b);
    if |b| >= 3 {
      if |b| - 3 >= n {
        assert b[n..][|b| - n - 3..] == b[|b| - 3..];
      } else {
        InsideIsNoReplacement(b);
      }
    }
  }

  /**
   What a buffered read holds back of a well-formed stream: the beginning of one rune, or nothing, or exactly in one
   case a whole rune, when the bytes at hand end in U+FFFD.
   */
  lemma HeldBack(rs: seq<seq<byte>>, tail: seq<byte>, i: nat)
    requires Valid(Concat(rs) + tail) && i < |rs| && AllValid(Run(rs).0[..i])
    requires Run(rs[..i]).1 != [] || |rs[i]| == 1024
    ensures var held := Run(rs[..i + 1]).1;
            && (held == [] || !FullRune(held) || held == [0xEF, 0xBF, 0xBD])
            && (held == [0xEF, 0xBF, 0xBD] <==> EndsInReplacement(Run(rs[..i]).1 + rs[i]))
  {
    hide Valid, Run, Concat, AllValid, Split, FullRune, EndsInReplacement;
    var more := ReadOnBoundary(rs, tail, i);
    RunUpTo(rs, i);
    SplitLeaves(Run(rs[..i]).1 + rs[i], more);
    BufferedSplits(Run(rs[..i]).1, rs[i]);
  }

  lemma BufferedSplits(buffer: seq<byte>, read: seq<byte>)
    requires buffer != [] || |read| == 1024
    ensures OnRead(buffer, read) == Split(buffer + read)
  {
  }

  /** A full read that ends in U+FFFD: a whole rune is held back until more output comes. */
  lemma ReplacementIsHeld()
    ensures var read := seq(1021, _ => 0x61) + [0xEF, 0xBF, 0xBD];
            |read| == 1024 && Valid(read) && Run([read]).1 == [0xEF, 0xBF, 0xBD]
  {
    hide Split;
    var letters: seq<byte> := seq(1021, _ => 0x61);
    var read := letters + REPLACEMENT;
    AsciiIsValid(letters);
    assert Valid(REPLACEMENT) by { assert REPLACEMENT[3..] == []; }
    SplitValid(letters, REPLACEMENT);
    assert read + [] == read && [] + read == read;
    SplitLeaves(read, []);
    assert read[|read| - 3..] == REPLACEMENT;
    OneRead(read);
  }

  lemma OneRead(read: seq<byte>)
    requires |read| == 1024
    ensures Run([read]).1 == Split([] + read).1
  {
    hide Split;
    assert [read][..0] == [] && [read][0] == read;
    assert Run([]) == ([], []);
  }

  /** A short read that ends inside a rune is sent as it is: the chunk is ill-formed although the stream is not. */
  lemma TornRune()
    ensures Valid([0xC3] + [0xA9])
    ensures Run([[0xC3], [0xA9]]).0 == [[0xC3], [0xA9]]
    ensures !AllValid(Run([[0xC3], [0xA9]]).0)
  {
    var one: seq<seq<byte>> := [[0xC3]];
    var two: seq<seq<byte>> := [[0xC3], [0xA9]];
    var none: seq<seq<byte>> := [];
    assert one[..0] == none && two[..1] == one && one[0] == [0xC3];
    assert Run(none) == ([], []);
    assert OnRead([], [0xC3]) == ([0xC3], []);
    assert Run(one).0 == Run(none).0 + [[0xC3]] == one;
    assert Run(one).1 == [];
    assert Run(two).0 == one + [[0xA9]] == two;
    assert !Valid(two[0]);
    var s: seq<byte> := [0xC3, 0xA9];
    assert [0xC3] + [0xA9] == s && s[RuneLen(s)..] == [];
  }
}
