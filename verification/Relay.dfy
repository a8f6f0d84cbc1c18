/**
 The session bridge as a state machine: the server reader, the stream parser and the bridge loop, joined
 by channels of capacity one. A run is any sequence of steps each enabled where it is taken, so what is
 proved about runs holds for every interleaving of the goroutines.
 */
module Relay {
  import opened Utf8
  import opened Rechunker

  type Bytes = seq<byte>

  datatype Message = Data(body: Bytes) | Other

  /** What the bridge broadcasts to the user's room. */
  datatype Shown = FromServer(body: Bytes) | Notice

  datatype Reader = Reading | Sending(chunk: Bytes) | ReaderGone
  datatype Parser = Idle | HoldsServer(chunk: Bytes) | HoldsUser(chunk: Bytes) | ParserGone
  datatype Bridge = Looping | Leaving | Left

  /** Leaving: the deferred send on `done` has not met its one receiver yet. */
  datatype State = State(
    input: seq<Bytes>,          // every read from the server connection
    buffer: Bytes,              // the re-chunker's buffer
    reader: Reader,
    sent: seq<Bytes>,           // every chunk put into srvInChan
    srvIn: seq<Bytes>, srvInClosed: bool,
    parser: Parser,
    srvOut: seq<Bytes>,
    shown: seq<Shown>,          // every broadcast
    received: seq<Message>,     // every message put into userInputMessageChan
    userIn: seq<Message>,
    userOut: seq<Bytes>,
    written: seq<Bytes>,        // every write to the server connection
    bridge: Bridge,
    lostServer: seq<Bytes>, lostUser: seq<Bytes>, lostByReader: seq<Bytes>)

  const INIT := State([], [], Reading, [], [], false, Idle, [], [], [], [], [], [], Looping, [], [], [])

  datatype Step =
    | ServerRead(bytes: Bytes)      // srvConn.Read returned nr > 0 bytes
    | ServerEnds                    // ... or an error
    | ReaderSends
    | ReaderSeesDone
    | ParserTakesServer
    | ParserPutsServer
    | ParserTakesUser
    | ParserPutsUser
    | ParserSeesClosedInput
    | ParserSeesDone
    | UserSends(msg: Message)       // room.Receive, from any node
    | BridgeShows
    | BridgeWrites
    | BridgeNotifies                // window changes, warnings and notifications
    | BridgeReturns                 // any of the ways out of the loop; done <- struct{}{} then waits for a receiver

  predicate Enabled(s: State, step: Step) {
    match step
    case ServerRead(bytes) => s.reader == Reading && 0 < |bytes| <= MAX_READ
    case ServerEnds => s.reader == Reading
    case ReaderSends => s.reader.Sending? && |s.srvIn| < 1
    case ReaderSeesDone => s.reader.Sending? && s.bridge == Leaving
    case ParserTakesServer => s.parser == Idle && s.srvIn != []
    case ParserPutsServer => s.parser.HoldsServer? && |s.srvOut| < 1
    case ParserTakesUser => s.parser == Idle && s.userIn != []
    case ParserPutsUser => s.parser.HoldsUser? && |s.userOut| < 1
    case ParserSeesClosedInput => s.parser == Idle && s.srvIn == [] && s.srvInClosed
    case ParserSeesDone => s.parser != ParserGone && s.bridge == Leaving
    case UserSends(_) => |s.userIn| < 1
    case BridgeShows => s.bridge == Looping && s.srvOut != []
    case BridgeWrites => s.bridge == Looping && s.userOut != []
    case BridgeNotifies => s.bridge == Looping
    case BridgeReturns => s.bridge == Looping
  }

  /** The message body that is forwarded, if any. */
  function Forwarded(msg: Message): seq<Bytes> {
    if msg.Data? && msg.body != [] then [msg.body] else []
  }

  function Apply(s: State, step: Step): State
    requires Enabled(s, step)
  {
    match step
    case ServerRead(bytes) =>
      var (chunk, buffer) := OnRead(s.buffer, bytes);
      s.(input := s.input + [bytes], buffer := buffer, reader := Sending(chunk))
    case ServerEnds => s.(reader := ReaderGone, srvInClosed := true)
    case ReaderSends => s.(srvIn := s.srvIn + [s.reader.chunk], sent := s.sent + [s.reader.chunk], reader := Reading)
    case ReaderSeesDone =>
      s.(lostByReader := [s.reader.chunk], reader := ReaderGone, srvInClosed := true, bridge := Left)
    case ParserTakesServer => s.(parser := HoldsServer(s.srvIn[0]), srvIn := s.srvIn[1..])
    case ParserPutsServer => s.(srvOut := s.srvOut + [s.parser.chunk], parser := Idle)
    case ParserTakesUser =>
      var b := Forwarded(s.userIn[0]);
      s.(userIn := s.userIn[1..], parser := if b == [] then Idle else HoldsUser(b[0]))
    case ParserPutsUser => s.(userOut := s.userOut + [s.parser.chunk], parser := Idle)
    case ParserSeesClosedInput => s.(parser := ParserGone)
    case ParserSeesDone =>
      s.(parser := ParserGone, bridge := Left,
         lostServer := if s.parser.HoldsServer? then [s.parser.chunk] else [],
         lostUser := if s.parser.HoldsUser? then [s.parser.chunk] else [])
    case UserSends(msg) => s.(userIn := s.userIn + [msg], received := s.received + [msg])
    case BridgeShows => s.(srvOut := s.srvOut[1..], shown := s.shown + [FromServer(s.srvOut[0])])
    case BridgeWrites => s.(userOut := s.userOut[1..], written := s.written + [s.userOut[0]])
    case BridgeNotifies => s.(shown := s.shown + [Notice])
    case BridgeReturns => s.(bridge := Leaving)
  }

  predicate IsRun(s: State, steps: seq<Step>)
    decreases |steps|
  {
    steps == [] || (Enabled(s, steps[0]) && IsRun(Apply(s, steps[0]), steps[1..]))
  }

  function After(s: State, steps: seq<Step>): State
    requires IsRun(s, steps)
    decreases |steps|
  {
    if steps == [] then s else After(Apply(s, steps[0]), steps[1..])
  }

  // ---- What is where ----

  function Chunks(shown: seq<Shown>): seq<Bytes> {
    if shown == [] then []
    else Chunks(shown[..|shown| - 1]) + match shown[|shown| - 1] case FromServer(b) => [b] case Notice => []
  }

  function Bodies(msgs: seq<Message>): seq<Bytes> {
    if msgs == [] then [] else Forwarded(msgs[0]) + Bodies(msgs[1..])
  }

  function ServerItem(p: Parser): seq<Bytes> {
    if p.HoldsServer? then [p.chunk] else []
  }

  function UserItem(p: Parser): seq<Bytes> {
    if p.HoldsUser? then [p.chunk] else []
  }

  function ReaderItem(r: Reader): seq<Bytes> {
    if r.Sending? then [r.chunk] else []
  }

  /** Every chunk sent is, in order: broadcast, in srvOut, in the parser's hand (or lost with it), in srvIn. */
  predicate ServerFlow(s: State) {
    s.sent == Line(Chunks(s.shown), s.srvOut, ServerItem(s.parser), s.lostServer, s.srvIn)
  }

  /** Every read is re-chunked, and the chunks are sent or in the reader's hand (or lost with it). */
  predicate InputFlow(s: State) {
    Run(s.input) == (s.sent + ReaderItem(s.reader) + s.lostByReader, s.buffer)
  }

  predicate UserFlow(s: State) {
    Bodies(s.received) == Line(s.written, s.userOut, UserItem(s.parser), s.lostUser, Bodies(s.userIn))
  }

  /** Losses happen only at the end, and channels stay within their capacity. */
  predicate Bounded(s: State) {
    && |s.srvIn| <= 1 && |s.srvOut| <= 1 && |s.userIn| <= 1 && |s.userOut| <= 1
    && |s.lostServer| + |s.lostUser| + |s.lostByReader| <= 1
    && (s.lostServer != [] || s.lostUser != [] ==> s.parser == ParserGone)
    && (s.lostByReader != [] ==> s.reader == ReaderGone)
    && (s.lostServer != [] || s.lostUser != [] || s.lostByReader != [] ==> s.bridge == Left)
    && (s.srvInClosed ==> s.reader == ReaderGone)
    && (s.parser == ParserGone && s.bridge != Left ==> s.srvIn == [] && s.srvInClosed)
  }

  predicate Inv(s: State) {
    ServerFlow(s) && InputFlow(s) && UserFlow(s) && Bounded(s)
  }

  lemma ChunksSnoc(shown: seq<Shown>, x: Shown)
    ensures Chunks(shown + [x]) == Chunks(shown) + match x case FromServer(b) => [b] case Notice => []
  {
    assert (shown + [x])[..|shown|] == shown;
  }

  lemma {:induction false} BodiesSnoc(msgs: seq<Message>, m: Message)
    ensures Bodies(msgs + [m]) == Bodies(msgs) + Forwarded(m)
  {
    if msgs == [] {
      assert [m][1..] == [];
    } else {
      assert (msgs + [m])[1..] == msgs[1..] + [m];
      BodiesSnoc(msgs[1..], m);
    }
  }

  lemma RunSnoc(input: seq<Bytes>, read: Bytes)
    ensures var (chunk, buffer) := OnRead(Run(input).1, read);
            Run(input + [read]) == (Run(input).0 + [chunk], buffer)
  {
    assert (input + [read])[..|input|] == input;
  }

  // A pipeline a, b, c, d, e in which the oldest items are in a.

  function Line<T>(a: seq<T>, b: seq<T>, c: seq<T>, d: seq<T>, e: seq<T>): seq<T> {
    a + b + c + d + e
  }

  lemma PutIn<T>(a: seq<T>, b: seq<T>, c: seq<T>, d: seq<T>, e: seq<T>, x: seq<T>)
    ensures Line(a, b, c, d, e + x) == Line(a, b, c, d, e) + x
  {
  }

  lemma TakeUp<T>(a: seq<T>, b: seq<T>, x: seq<T>, e: seq<T>)
    ensures Line(a, b, [], [], x + e) == Line(a, b, x, [], e)
  {
  }

  lemma PutOut<T>(a: seq<T>, b: seq<T>, x: seq<T>, e: seq<T>)
    ensures Line(a, b, x, [], e) == Line(a, b + x, [], [], e)
  {
  }

  lemma TakeOut<T>(a: seq<T>, b: seq<T>, c: seq<T>, d: seq<T>, e: seq<T>)
    requires b != []
    ensures Line(a, b, c, d, e) == Line(a + [b[0]], b[1..], c, d, e)
  {
    assert b == [b[0]] + b[1..];
  }

  lemma Drop<T>(a: seq<T>, b: seq<T>, x: seq<T>, e: seq<T>)
    ensures Line(a, b, x, [], e) == Line(a, b, [], x, e)
  {
  }

  lemma ServerFlowStep(s: State, step: Step)
    requires Inv(s) && Enabled(s, step)
    ensures ServerFlow(Apply(s, step))
  {
    hide InputFlow, UserFlow, Run, OnRead, Bodies, Chunks, Line;
    var shown := Chunks(s.shown);
    match step
    case ReaderSends => PutIn(shown, s.srvOut, ServerItem(s.parser), s.lostServer, s.srvIn, [s.reader.chunk]);
    case ParserTakesServer =>
      assert s.srvIn == [s.srvIn[0]] + s.srvIn[1..];
      TakeUp(shown, s.srvOut, [s.srvIn[0]], s.srvIn[1..]);
    case ParserPutsServer => PutOut(shown, s.srvOut, [s.parser.chunk], s.srvIn);
    case ParserSeesDone => Drop(shown, s.srvOut, ServerItem(s.parser), s.srvIn);
    case BridgeShows =>
      ChunksSnoc(s.shown, FromServer(s.srvOut[0]));
      TakeOut(shown, s.srvOut, ServerItem(s.parser), s.lostServer, s.srvIn);
    case BridgeNotifies => ChunksSnoc(s.shown, Notice); assert shown + [] == shown;
    case _ =>
  }

  lemma InputFlowStep(s: State, step: Step)
    requires Inv(s) && Enabled(s, step)
    ensures InputFlow(Apply(s, step))
  {
    hide ServerFlow, UserFlow, Run, OnRead, Bodies;
    if step.ServerRead? {
      RunSnoc(s.input, step.bytes);
      assert s.sent + [] + [] == s.sent;
      var chunk := OnRead(s.buffer, step.bytes).0;
      assert s.sent + [chunk] + [] == s.sent + [chunk];
    } else if step.ReaderSends? || step.ReaderSeesDone? {
      var chunk := s.reader.chunk;
      assert s.sent + [chunk] + [] == (s.sent + [chunk]) + [] + [] == s.sent + [] + [chunk];
    }
  }

  lemma UserFlowStep(s: State, step: Step)
    requires Inv(s) && Enabled(s, step)
    ensures UserFlow(Apply(s, step))
  {
    hide InputFlow, ServerFlow, Run, OnRead, Bodies, Chunks, Line;
    match step
    case UserSends(msg) =>
      BodiesSnoc(s.received, msg);
      BodiesSnoc(s.userIn, msg);
      PutIn(s.written, s.userOut, UserItem(s.parser), s.lostUser, Bodies(s.userIn), Forwarded(msg));
    case ParserTakesUser =>
      BodiesHead(s.userIn);
      TakeUp(s.written, s.userOut, Forwarded(s.userIn[0]), Bodies(s.userIn[1..]));
    case ParserPutsUser => PutOut(s.written, s.userOut, [s.parser.chunk], Bodies(s.userIn));
    case ParserSeesDone => Drop(s.written, s.userOut, UserItem(s.parser), Bodies(s.userIn));
    case BridgeWrites => TakeOut(s.written, s.userOut, UserItem(s.parser), s.lostUser, Bodies(s.userIn));
    case _ =>
  }

  lemma BodiesHead(msgs: seq<Message>)
    requires msgs != []
    ensures Bodies(msgs) == Forwarded(msgs[0]) + Bodies(msgs[1..])
  {
  }

  lemma InvStep(s: State, step: Step)
    requires Inv(s) && Enabled(s, step)
    ensures Inv(Apply(s, step))
  {
    hide InputFlow, ServerFlow, UserFlow, Run, OnRead, Bodies;
    ServerFlowStep(s, step);
    InputFlowStep(s, step);
    UserFlowStep(s, step);
  }

  /** The invariant holds after every run, that is for every interleaving. */
  lemma {:induction false} InvAlways(s: State, steps: seq<Step>)
    requires Inv(s) && IsRun(s, steps)
    ensures Inv(After(s, steps))
    decreases |steps|
  {
    hide Inv, Enabled, Apply;
    if steps != [] {
      InvStep(s, steps[0]);
      InvAlways(Apply(s, steps[0]), steps[1..]);
    }
  }

  lemma InvInit()
    ensures Inv(INIT)
  {
  }

  lemma {:induction false} ConcatAppend(a: seq<Bytes>, b: seq<Bytes>)
    ensures Concat(a + b) == Concat(a) + Concat(b)
    decreases |b|
  {
    if b == [] {
      assert a + b == a;
    } else {
      var init, last := b[..|b| - 1], b[|b| - 1];
      assert a + b == (a + init) + [last];
      ConcatSnoc(a + init, last);
      ConcatAppend(a, init);
    }
  }

  /**
   Safety towards the user, for every interleaving: what the bridge has broadcast of the server's output is,
   byte for byte and in order, a prefix of what was read from the server, and chunk for chunk a prefix of
   what the re-chunker made of it. While the bridge loops nothing at all is missing: the rest is exactly the
   channel contents, the items in hand and the re-chunker's buffer of at most three bytes.
   */
  lemma ServerOutputIsPrefix(steps: seq<Step>)
    requires IsRun(INIT, steps)
    ensures var s := After(INIT, steps);
            var shown := Chunks(s.shown);
            && shown <= Run(s.input).0
            && Concat(shown) <= Concat(s.input)
            && (s.bridge != Left ==>
                  Concat(s.input) == Concat(shown + s.srvOut + ServerItem(s.parser) + s.srvIn + ReaderItem(s.reader)) + s.buffer)
            && |s.buffer| <= 3
  {
    hide IsRun, After, Run, Chunks, Concat;
    InvInit();
    InvAlways(INIT, steps);
    var s := After(INIT, steps);
    var shown := Chunks(s.shown);
    var tail := ReaderItem(s.reader) + s.lostByReader;
    var rest := s.srvOut + ServerItem(s.parser) + s.lostServer + s.srvIn + tail;
    assert Run(s.input).0 == shown + rest by {
      PipelineRest(shown, s.srvOut, ServerItem(s.parser), s.lostServer, s.srvIn, ReaderItem(s.reader), s.lostByReader);
    }
    Conservation(s.input);
    ConcatAppend(shown, rest);
    if s.bridge != Left {
      NothingLost(shown, s.srvOut, ServerItem(s.parser), s.srvIn, ReaderItem(s.reader));
    }
  }

  lemma PipelineRest<T>(a: seq<T>, b: seq<T>, c: seq<T>, d: seq<T>, e: seq<T>, f: seq<T>, g: seq<T>)
    ensures Line(a, b, c, d, e) + f + g == a + (b + c + d + e + (f + g))
  {
  }

  lemma NothingLost<T>(a: seq<T>, b: seq<T>, c: seq<T>, e: seq<T>, f: seq<T>)
    ensures a + (b + c + [] + e + (f + [])) == a + b + c + e + f
  {
  }

  /** The bytes of the data messages; other messages have none. */
  function DataBytes(msgs: seq<Message>): Bytes {
    if msgs == [] then []
    else
      (match msgs[0]
       case Data(body) => body
       case Other => []) + DataBytes(msgs[1..])
  }

  /** What is forwarded of messages is all their bytes, and nothing empty. */
  lemma {:induction false} BodiesAreBytes(msgs: seq<Message>)
    ensures Concat(Bodies(msgs)) == DataBytes(msgs)
    ensures [] !in Bodies(msgs)
  {
    if msgs == [] {
      assert Concat([]) == [];
    } else {
      BodiesAreBytes(msgs[1..]);
      ConcatAppend(Forwarded(msgs[0]), Bodies(msgs[1..]));
      ConcatForwarded(msgs[0]);
    }
  }

  lemma ConcatForwarded(msg: Message)
    ensures Concat(Forwarded(msg)) == match msg case Data(body) => body case Other => []
  {
    if msg.Data? && msg.body != [] {
      assert [msg.body][..0] == [];
    }
  }

  /**
   Safety towards the server, for every interleaving: what is written is a prefix, in order, of the bodies of the data
   messages the user side sent, byte for byte, and never empty. Until the bridge has left nothing is missing: the rest
   is exactly the channel contents and the item in hand.
   */
  lemma UserInputIsPrefix(steps: seq<Step>)
    requires IsRun(INIT, steps)
    ensures var s := After(INIT, steps);
            && s.written <= Bodies(s.received)
            && Concat(s.written) <= DataBytes(s.received) && [] !in s.written
            && (s.bridge != Left ==>
                  && Bodies(s.received) == s.written + s.userOut + UserItem(s.parser) + Bodies(s.userIn)
                  && DataBytes(s.received) == Concat(s.written + s.userOut + UserItem(s.parser)) + DataBytes(s.userIn))
  {
    hide IsRun, After, Run, Bodies, Concat, DataBytes;
    InvInit();
    InvAlways(INIT, steps);
    var s := After(INIT, steps);
    UserRest(s.written, s.userOut, UserItem(s.parser), s.lostUser, Bodies(s.userIn));
    BodiesAreBytes(s.received);
    BodiesAreBytes(s.userIn);
    var rest := Bodies(s.received)[|s.written|..];
    assert Bodies(s.received) == s.written + rest;
    ConcatAppend(s.written, rest);
    if s.bridge != Left {
      ConcatAppend(s.written + s.userOut + UserItem(s.parser), Bodies(s.userIn));
    }
  }

  // ---- Nothing is stuck ----

  /** The step that moves the item furthest on. */
  function Forward(s: State): Step {
    if s.srvOut != [] then BridgeShows
    else if s.userOut != [] then BridgeWrites
    else if s.parser.HoldsServer? then ParserPutsServer
    else if s.parser.HoldsUser? then ParserPutsUser
    else if s.srvIn != [] then ParserTakesServer
    else if s.reader.Sending? then ReaderSends
    else ParserTakesUser
  }

  /** Nothing is under way: as to user input, only if the parser still runs. */
  predicate Empty(s: State) {
    && s.srvOut == [] && s.srvIn == [] && s.userOut == [] && !s.reader.Sending?
    && !s.parser.HoldsServer? && !s.parser.HoldsUser?
    && (s.parser != ParserGone ==> s.userIn == [])
  }

  /** How many steps the items under way are from their ends. */
  function Distance(s: State): nat {
    |s.srvOut| + |s.userOut| + 3 * |s.srvIn| + 3 * |s.userIn|
    + (if s.parser.HoldsServer? || s.parser.HoldsUser? then 2 else 0) + (if s.reader.Sending? then 4 else 0)
  }

  lemma ForwardMoves(s: State)
    requires Inv(s) && s.bridge == Looping && !Empty(s)
    ensures Enabled(s, Forward(s))
    ensures var t := Apply(s, Forward(s));
            && Distance(t) < Distance(s)
            && t.bridge == Looping && t.input == s.input && t.received == s.received
            && (t.parser != ParserGone <==> s.parser != ParserGone)
            && (t.reader != ReaderGone <==> s.reader != ReaderGone)
  {
    hide ServerFlow, InputFlow, UserFlow;
  }

  lemma {:induction false} CanEmpty(s: State) returns (more: seq<Step>)
    requires Inv(s) && s.bridge == Looping
    ensures IsRun(s, more)
    ensures var t := After(s, more);
            && Empty(t) && t.bridge == Looping && t.input == s.input && t.received == s.received
            && (t.parser != ParserGone <==> s.parser != ParserGone)
            && (t.reader != ReaderGone <==> s.reader != ReaderGone)
    decreases Distance(s)
  {
    hide Inv, Enabled, Apply, Empty, Distance;
    if Empty(s) {
      more := [];
    } else {
      var step := Forward(s);
      ForwardMoves(s);
      InvStep(s, step);
      var rest := CanEmpty(Apply(s, step));
      more := [step] + rest;
      assert more[1..] == rest;
    }
  }

  /**
   No deadlock: from every reachable state in which the bridge loops, the goroutines can go on, without anything new
   coming in, until all that was read is shown but for the re-chunker's buffer, and all that was typed is written
   if the parser has not ended with the server's output.
   */
  lemma EverythingCanArrive(steps: seq<Step>) returns (more: seq<Step>)
    requires IsRun(INIT, steps) && After(INIT, steps).bridge == Looping
    ensures IsRun(INIT, steps + more)
    ensures var s, t := After(INIT, steps), After(INIT, steps + more);
            && t.input == s.input && t.received == s.received
            && Concat(Chunks(t.shown)) + t.buffer == Concat(s.input)
            && (s.parser != ParserGone ==> Concat(t.written) == DataBytes(s.received))
  {
    hide Run, Chunks, Concat, DataBytes, Bodies, IsRun, After;
    InvInit();
    InvAlways(INIT, steps);
    more := CanEmpty(After(INIT, steps));
    RunThen(INIT, steps, more);
    ServerOutputIsPrefix(steps + more);
    UserInputIsPrefix(steps + more);
    var t := After(INIT, steps + more);
    NoBodies();
    NothingMore(Chunks(t.shown));
    NothingMore(t.written);
    if t.parser != ParserGone {
      assert t.written + t.userOut + UserItem(t.parser) == t.written;
      assert DataBytes(t.userIn) == [];
    }
  }

  /**
   Nobody is shut out: from every reachable state in which the bridge loops, anything the user side may type next can be
   received and written while the parser runs, and anything the server may send next can be read while the reader runs.
   */
  lemma NextCanArrive(steps: seq<Step>, msg: Message, read: Bytes) returns (typed: seq<Step>, sent: seq<Step>)
    requires IsRun(INIT, steps) && After(INIT, steps).bridge == Looping && 0 < |read| <= 1024
    ensures var s := After(INIT, steps);
            s.parser != ParserGone ==>
              && IsRun(INIT, steps + typed)
              && var t := After(INIT, steps + typed);
                 t.received == s.received + [msg] && Concat(t.written) == DataBytes(s.received + [msg])
    ensures var s := After(INIT, steps);
            s.reader != ReaderGone ==>
              && IsRun(INIT, steps + sent)
              && var t := After(INIT, steps + sent);
                 t.input == s.input + [read] && Concat(Chunks(t.shown)) + t.buffer == Concat(s.input + [read])
  {
    hide Run, Chunks, Concat, DataBytes, Bodies, IsRun, After, Inv, OnRead;
    InvInit();
    InvAlways(INIT, steps);
    var s := After(INIT, steps);
    var clear := CanEmpty(s);
    RunThen(INIT, steps, clear);
    var u := After(s, clear);
    assert After(INIT, steps + clear) == u;
    var one := [UserSends(msg)];
    typed, sent := [], [];
    if s.parser != ParserGone {
      OneStep(u, UserSends(msg));
      RunThen(INIT, steps + clear, one);
      var rest := EverythingCanArrive(steps + clear + one);
      typed := clear + one + rest;
      assert steps + typed == steps + clear + one + rest;
    }
    if s.reader != ReaderGone {
      OneStep(u, ServerRead(read));
      RunThen(INIT, steps + clear, [ServerRead(read)]);
      var rest := EverythingCanArrive(steps + clear + [ServerRead(read)]);
      sent := clear + [ServerRead(read)] + rest;
      assert steps + sent == steps + clear + [ServerRead(read)] + rest;
    }
  }

  lemma OneStep(s: State, step: Step)
    requires Enabled(s, step)
    ensures IsRun(s, [step]) && After(s, [step]) == Apply(s, step)
  {
    assert [step][1..] == [];
  }

  lemma NoBodies()
    ensures Bodies([]) == [] && DataBytes([]) == []
  {
  }

  lemma NothingMore(a: seq<Bytes>)
    ensures a + [] + [] + [] + [] == a && a + [] + [] == a && Concat(a) + [] == Concat(a)
  {
  }

  lemma {:induction false} RunThen(s: State, a: seq<Step>, b: seq<Step>)
    requires IsRun(s, a) && IsRun(After(s, a), b)
    ensures IsRun(s, a + b) && After(s, a + b) == After(After(s, a), b)
    decreases |a|
  {
    hide Apply, Enabled;
    if a == [] {
      assert a + b == b;
    } else {
      assert (a + b)[0] == a[0] && (a + b)[1..] == a[1..] + b;
      RunThen(Apply(s, a[0]), a[1..], b);
    }
  }

  lemma UserRest<T>(a: seq<T>, b: seq<T>, c: seq<T>, d: seq<T>, e: seq<T>)
    ensures Line(a, b, c, d, e) == a + (b + c + d + e)
    ensures d == [] ==> Line(a, b, c, d, e) == a + b + c + e
  {
  }

  /**
   Re-chunking and relay together: if the server's output is well-formed UTF-8 so far and its reads that find
   nothing pending and are not 1024 bytes long end on rune boundaries, every message shown of it is well-formed.
   */
  lemma ShownIsWellFormed(steps: seq<Step>, tail: Bytes, i: nat)
    requires IsRun(INIT, steps)
    requires var s := After(INIT, steps);
             && Valid(Concat(s.input) + tail) && ShortReadsEndWhole(s.input)
             && i < |s.shown| && s.shown[i].FromServer?
    ensures Valid(After(INIT, steps).shown[i].body)
  {
    hide Valid, Run, IsRun, After, Concat, ShortReadsEndWhole;
    var s := After(INIT, steps);
    ServerOutputIsPrefix(steps);
    ChunksWellFormed(s.input, tail);
    var k := ShownIsChunk(s.shown, i);
    assert Run(s.input).0[k] == Chunks(s.shown)[k];
  }

  lemma {:induction false} ShownIsChunk(shown: seq<Shown>, i: nat) returns (k: nat)
    requires i < |shown| && shown[i].FromServer?
    ensures k < |Chunks(shown)| && Chunks(shown)[k] == shown[i].body
    decreases |shown|
  {
    var init := shown[..|shown| - 1];
    if i == |shown| - 1 {
      k := |Chunks(init)|;
    } else {
      k := ShownIsChunk(init, i);
    }
  }
}
