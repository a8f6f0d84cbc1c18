/**
 The room cache: one goroutine owns the map, any number of callers talk to it over unbuffered channels,
 and all Gets share one result channel. Steps are the rendezvous and what the owner does between them.
 */
module Cache {
  import opened Options

  type Sid = string
  type Caller = nat

  /** A room object: two rooms may carry the same id. */
  datatype RoomRef = RoomRef(id: Sid, object_: nat)

  datatype Op = Add(room: RoomRef) | Delete(room: RoomRef) | Get(sid: Sid)
  datatype Result = Done | Found(room: Option<RoomRef>)

  // ---- The reference: a plain map ----

  type Rooms = map<Sid, RoomRef>

  /** The operations on a plain map. */
  function Apply(m: Rooms, op: Op): (Rooms, Result) {
    match op
    case Add(r) => (m[r.id := r], Done)
    case Delete(r) => (m - {r.id}, Done)
    case Get(sid) => (m, Found(if sid in m then Some(m[sid]) else None))
  }

  // ---- The concurrent system ----

  /** l.caches[sid] */
  function Lookup(m: Rooms, sid: Sid): Option<RoomRef> {
    if sid in m then Some(m[sid]) else None
  }

  datatype Pc = Idle | Sending(op: Op) | Awaiting | Returning(result: Result)

  /** Storing, Leaving: the owner has received a room but not yet touched the map; Stopping: s.stop() runs. */
  datatype Owner = Selecting | Storing(room: RoomRef) | Leaving(room: RoomRef) | Stopping | Replying(answer: Option<RoomRef>)

  /** Called and Returned are what a caller sees; Took is the rendezvous in between. */
  datatype Event = Called(c: Caller, op: Op) | Took(c: Caller, op: Op, result: Result) | Returned(c: Caller, result: Result)

  datatype State = State(pcs: map<Caller, Pc>, owner: Owner, caches: Rooms, history: seq<Event>)

  const INIT := State(map[], Selecting, map[], [])

  datatype Step =
    | Call(c: Caller, op: Op)
    | Receive(c: Caller)       // the owner takes what the caller sends
    | Store                    // l.caches[s.Id] = s
    | Remove                   // delete(l.caches, s.Id)
    | Stopped                  // s.stop() returns
    | Reply(c: Caller)         // some waiting caller receives from resultChan
    | Return(c: Caller)

  function PcOf(s: State, c: Caller): Pc {
    if c in s.pcs then s.pcs[c] else Idle
  }

  predicate Enabled(s: State, step: Step) {
    match step
    case Call(c, _) => PcOf(s, c) == Idle
    case Receive(c) => PcOf(s, c).Sending? && s.owner == Selecting
    case Store => s.owner.Storing?
    case Remove => s.owner.Leaving?
    case Stopped => s.owner == Stopping
    case Reply(c) => PcOf(s, c) == Awaiting && s.owner.Replying?
    case Return(c) => PcOf(s, c).Returning?
  }

  function Do(s: State, step: Step): State
    requires Enabled(s, step)
  {
    match step
    case Call(c, op) => s.(pcs := s.pcs[c := Sending(op)], history := s.history + [Called(c, op)])
    case Receive(c) =>
      var op := PcOf(s, c).op;
      match op {
        case Add(r) =>
          s.(pcs := s.pcs[c := Returning(Done)], owner := Storing(r), history := s.history + [Took(c, op, Done)])
        case Delete(r) =>
          s.(pcs := s.pcs[c := Returning(Done)], owner := Leaving(r), history := s.history + [Took(c, op, Done)])
        case Get(sid) =>
          var a := Lookup(s.caches, sid);
          s.(pcs := s.pcs[c := Awaiting], owner := Replying(a), history := s.history + [Took(c, op, Found(a))])
      }
    case Store => s.(caches := s.caches[s.owner.room.id := s.owner.room], owner := Selecting)
    case Remove => s.(caches := s.caches - {s.owner.room.id}, owner := Stopping)
    case Stopped => s.(owner := Selecting)
    case Reply(c) => s.(pcs := s.pcs[c := Returning(Found(s.owner.answer))], owner := Selecting)
    case Return(c) => s.(pcs := s.pcs[c := Idle], history := s.history + [Returned(c, PcOf(s, c).result)])
  }

  predicate IsRun(s: State, steps: seq<Step>)
    decreases |steps|
  {
    steps == [] || (Enabled(s, steps[0]) && IsRun(Do(s, steps[0]), steps[1..]))
  }

  function After(s: State, steps: seq<Step>): State
    requires IsRun(s, steps)
    decreases |steps|
  {
    if steps == [] then s else After(Do(s, steps[0]), steps[1..])
  }

  // ---- Linearizability ----

  /** Where a caller stands after a history: each operation is called, takes effect once, and returns that effect. */
  datatype Phase = Out | Pending(op: Op) | Effective(op: Op, result: Result) | Wrong

  function NextPhase(p: Phase, e: Event): Phase {
    match e
    case Called(_, op) => if p == Out then Pending(op) else Wrong
    case Took(_, op, result) => if p == Pending(op) then Effective(op, result) else Wrong
    case Returned(_, result) => if p.Effective? && p.result == result then Out else Wrong
  }

  function PhaseOf(h: seq<Event>, c: Caller): Phase {
    if h == [] then Out
    else
      var p := PhaseOf(h[..|h| - 1], c);
      if h[|h| - 1].c == c then NextPhase(p, h[|h| - 1]) else p
  }

  /** The plain map after the effects in a history, None if some effect is not the plain map's. */
  function Replay(h: seq<Event>): Option<Rooms> {
    if h == [] then Some(map[])
    else
      var m, e := Replay(h[..|h| - 1]), h[|h| - 1];
      if m == None || !e.Took? then m
      else if Apply(m.value, e.op).1 == e.result then Some(Apply(m.value, e.op).0)
      else None
  }

  /** Every operation takes effect between its call and its return, all effects in sequence are those of a plain map. */
  ghost predicate Linearizable(h: seq<Event>) {
    (forall c: Caller :: PhaseOf(h, c) != Wrong) && Replay(h) != None
  }

  lemma HistorySnoc(h: seq<Event>, e: Event, c: Caller)
    ensures PhaseOf(h + [e], c) == if e.c == c then NextPhase(PhaseOf(h, c), e) else PhaseOf(h, c)
    ensures Replay(h + [e]) ==
              if Replay(h) == None || !e.Took? then Replay(h)
              else if Apply(Replay(h).value, e.op).1 == e.result then Some(Apply(Replay(h).value, e.op).0)
              else None
  {
    assert (h + [e])[..|h|] == h;
  }

  // ---- The invariant ----

  /** The map as it will be once the owner has finished what it took. */
  function Settled(s: State): Rooms {
    match s.owner
    case Storing(r) => s.caches[r.id := r]
    case Leaving(r) => s.caches - {r.id}
    case _ => s.caches
  }

  /** A caller's program counter against its phase: a waiting caller's answer is the one being offered. */
  predicate Agrees(pc: Pc, p: Phase, owner: Owner) {
    match pc
    case Idle => p == Out
    case Sending(op) => p == Pending(op)
    case Awaiting => owner.Replying? && p.Effective? && p.op.Get? && p.result == Found(owner.answer)
    case Returning(result) => p.Effective? && p.result == result
  }

  ghost predicate Inv(s: State) {
    && (forall c: Caller :: Agrees(PcOf(s, c), PhaseOf(s.history, c), s.owner))
    && (forall b: Caller, c: Caller :: PcOf(s, b) == Awaiting && PcOf(s, c) == Awaiting ==> b == c)
    && Replay(s.history) == Some(Settled(s))
  }

  lemma InvStep(s: State, step: Step)
    requires Inv(s) && Enabled(s, step)
    ensures Inv(Do(s, step))
  {
    hide PhaseOf, Replay;
    var r := Do(s, step);
    forall c: Caller | PcOf(s, c) == Awaiting
      ensures s.owner.Replying?
    {
      assert Agrees(PcOf(s, c), PhaseOf(s.history, c), s.owner);
    }
    forall b: Caller, c: Caller | PcOf(r, b) == Awaiting && PcOf(r, c) == Awaiting
      ensures b == c
    {
      assert PcOf(s, b) == Awaiting || step == Receive(b);
      assert PcOf(s, c) == Awaiting || step == Receive(c);
    }
    if r.history != s.history {
      var e := r.history[|r.history| - 1];
      assert r.history == s.history + [e];
      forall c: Caller
        ensures Agrees(PcOf(r, c), PhaseOf(r.history, c), r.owner)
      {
        HistorySnoc(s.history, e, c);
        assert Agrees(PcOf(s, c), PhaseOf(s.history, c), s.owner);
      }
      HistorySnoc(s.history, e, 0);
    } else {
      forall c: Caller
        ensures Agrees(PcOf(r, c), PhaseOf(r.history, c), r.owner)
      {
        assert Agrees(PcOf(s, c), PhaseOf(s.history, c), s.owner);
      }
    }
  }

  lemma {:induction false} InvAlways(s: State, steps: seq<Step>)
    requires Inv(s) && IsRun(s, steps)
    ensures Inv(After(s, steps))
    decreases |steps|
  {
    hide Inv, Enabled, Do;
    if steps != [] {
      InvStep(s, steps[0]);
      InvAlways(Do(s, steps[0]), steps[1..]);
    }
  }

  /**
   For any number of callers and any interleaving: Add, Delete and Get are atomic operations on one plain
   map, each taking effect between its call and its return and returning its own result; in particular a Get
   never returns the answer to another caller's key, although all answers go through one channel.
   */
  lemma CacheIsLinearizable(steps: seq<Step>)
    requires IsRun(INIT, steps)
    ensures Linearizable(After(INIT, steps).history)
  {
    hide PhaseOf, Replay, IsRun, After;
    EmptyHistory();
    InvAlways(INIT, steps);
    var s := After(INIT, steps);
    forall c: Caller
      ensures PhaseOf(s.history, c) != Wrong
    {
      assert Agrees(PcOf(s, c), PhaseOf(s.history, c), s.owner);
    }
  }

  lemma EmptyHistory()
    ensures Inv(INIT)
  {
  }

  /** While an answer is offered exactly one caller waits for it, so it cannot reach another. */
  lemma OneWaiter(steps: seq<Step>, b: Caller, c: Caller)
    requires IsRun(INIT, steps)
    requires PcOf(After(INIT, steps), b) == Awaiting
    ensures After(INIT, steps).owner.Replying?
    ensures PcOf(After(INIT, steps), c) == Awaiting ==> b == c
  {
    hide PhaseOf, Replay, IsRun, After;
    EmptyHistory();
    InvAlways(INIT, steps);
    var s := After(INIT, steps);
    assert Agrees(PcOf(s, b), PhaseOf(s.history, b), s.owner);
  }

  // ---- Every call can return ----

  /** An answer is only offered to somebody. */
  ghost predicate Waited(s: State) {
    s.owner.Replying? ==> exists c: Caller :: PcOf(s, c) == Awaiting
  }

  lemma WaitedStep(s: State, step: Step)
    requires Inv(s) && Waited(s) && Enabled(s, step)
    ensures Waited(Do(s, step))
  {
    hide PhaseOf, Replay;
    var r := Do(s, step);
    if r.owner.Replying? {
      if step.Receive? {
        assert PcOf(r, step.c) == Awaiting;
      } else {
        var c: Caller :| PcOf(s, c) == Awaiting;
        assert PcOf(r, c) == Awaiting;
      }
    }
  }

  lemma {:induction false} WaitedAlways(s: State, steps: seq<Step>)
    requires Inv(s) && Waited(s) && IsRun(s, steps)
    ensures Inv(After(s, steps)) && Waited(After(s, steps))
    decreases |steps|
  {
    hide Inv, Waited, Enabled, Do;
    if steps != [] {
      InvStep(s, steps[0]);
      WaitedStep(s, steps[0]);
      WaitedAlways(Do(s, steps[0]), steps[1..]);
    }
  }

  lemma OneStep(s: State, step: Step, rest: seq<Step>)
    requires Enabled(s, step) && IsRun(Do(s, step), rest)
    ensures IsRun(s, [step] + rest) && After(s, [step] + rest) == After(Do(s, step), rest)
  {
    assert ([step] + rest)[1..] == rest;
  }

  lemma NoSteps(s: State)
    ensures IsRun(s, []) && After(s, []) == s
  {
  }

  /** How far the owner is from its select, and a call from its end. */
  function Work(s: State, c: Caller): nat {
    (match s.owner
     case Selecting => 0
     case Leaving(_) => 2
     case _ => 1)
    + (match PcOf(s, c)
       case Idle => 0
       case Returning(_) => 1
       case Awaiting => 2
       case Sending(_) => 5)
  }

  /** The owner finishes what it is at, then takes what the caller sends. */
  lemma NextStep(s: State, c: Caller) returns (step: Step)
    requires Inv(s) && Waited(s) && PcOf(s, c) != Idle
    ensures Enabled(s, step) && Work(Do(s, step), c) < Work(s, c)
  {
    hide PhaseOf, Replay;
    assert Agrees(PcOf(s, c), PhaseOf(s.history, c), s.owner);
    match s.owner
    case Storing(_) => step := Store;
    case Leaving(_) => step := Remove;
    case Stopping => step := Stopped;
    case Replying(_) =>
      var w: Caller :| PcOf(s, w) == Awaiting;
      step := Reply(w);
    case Selecting =>
      step := if PcOf(s, c).Sending? then Receive(c) else Return(c);
  }

  lemma {:induction false} CanReturn(s: State, c: Caller) returns (more: seq<Step>)
    requires Inv(s) && Waited(s)
    ensures IsRun(s, more) && PcOf(After(s, more), c) == Idle
    decreases Work(s, c)
  {
    hide Inv, Waited, Enabled, Do, IsRun, After, Work;
    if PcOf(s, c) == Idle {
      NoSteps(s);
      more := [];
    } else {
      var step := NextStep(s, c);
      InvStep(s, step);
      WaitedStep(s, step);
      var rest := CanReturn(Do(s, step), c);
      OneStep(s, step, rest);
      more := [step] + rest;
    }
  }

  /** No call is stuck: from every reachable state some continuation returns it. */
  lemma EveryCallCanReturn(steps: seq<Step>, c: Caller)
    requires IsRun(INIT, steps)
    ensures exists more :: IsRun(After(INIT, steps), more) && PcOf(After(After(INIT, steps), more), c) == Idle
  {
    hide Inv, Waited, IsRun, After;
    EmptyHistory();
    NobodyOffered();
    WaitedAlways(INIT, steps);
    var more := CanReturn(After(INIT, steps), c);
  }

  lemma NobodyOffered()
    ensures Waited(INIT)
  {
  }

  /** Every operation can be called when the caller is idle, and done. */
  lemma EveryCallWorks(steps: seq<Step>, c: Caller, op: Op)
    requires IsRun(INIT, steps) && PcOf(After(INIT, steps), c) == Idle
    ensures exists more ::
              && IsRun(After(INIT, steps), [Call(c, op)] + more)
              && PcOf(After(After(INIT, steps), [Call(c, op)] + more), c) == Idle
  {
    hide Inv, Waited, IsRun, After;
    EmptyHistory();
    NobodyOffered();
    WaitedAlways(INIT, steps);
    var s := After(INIT, steps);
    InvStep(s, Call(c, op));
    WaitedStep(s, Call(c, op));
    var more := CanReturn(Do(s, Call(c, op)), c);
    OneStep(s, Call(c, op), more);
  }
}
