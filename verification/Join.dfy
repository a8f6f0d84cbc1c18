/**
 Requests of the multi-node room manager: callers of sendRequest, the goroutine that serves them, and a
 network that may deliver a success message late, twice or never. A run is any interleaving of the steps.
 */
module Join {
  import opened Options

  type RoomId = string
  type Caller = nat
  type Channel = nat

  /** uniqueReqId: two requests for one room within a second share an id. */
  datatype ReqId = ReqId(second: nat, node: string, room: RoomId)

  datatype Kind = JoinEvent | ExitEvent

  datatype Request = Request(id: ReqId, room: RoomId, kind: Kind)

  /** createRoomEventRequest */
  function Build(second: nat, node: string, room: RoomId, kind: Kind): Request {
    Request(ReqId(second, node, room), room, kind)
  }

  datatype Response = Response(id: ReqId, room: Option<RoomId>, failed: bool)

  /** A response channel of capacity one: for whom it was made, what it holds, and how often it was sent to. */
  datatype Chan = Chan(caller: Caller, req: Request, content: seq<Response>, sends: nat)

  datatype Pc =
    | Idle
    | Sending(req: Request)                  // m.reqChan <- req
    | Fetching(req: Request)                 // <-m.responseChan
    | Waiting(req: Request, ch: Channel)     // the first select
    | TimedOut(req: Request, ch: Channel)    // the second select
    | Finished(req: Request, ch: Channel, answer: Option<Response>)

  datatype Owner = Selecting | Handing(req: Request, ch: Channel) | Serving(req: Request, ch: Channel)

  datatype State = State(
    pcs: map<Caller, Pc>,
    owner: Owner,
    requests: map<ReqId, Channel>,   // requestsMap
    chans: map<Channel, Chan>,
    next: Channel,
    remote: set<RoomId>,             // remoteRoomCache
    published: set<ReqId>)           // join requests sent to the other nodes

  const INIT := State(map[], Selecting, map[], map[], 0, {}, {})

  datatype Step =
    | Start(c: Caller, second: nat, node: string, room: RoomId, kind: Kind)
    | Accept(c: Caller)
    | Hand(c: Caller)
    | ServeCached
    | ServePublished
    | ServeFailed
    | Timeout(c: Caller)
    | Cancel(c: Caller)
    | Take(c: Caller)
    | Success(id: ReqId, failed: bool)   // a JoinSuccess message; `failed`: no connection for the proxy
    | RoomGone(room: RoomId)             // an Exit message, or the proxy of the room ended

  function PcOf(s: State, c: Caller): Pc {
    if c in s.pcs then s.pcs[c] else Idle
  }

  predicate Enabled(s: State, step: Step) {
    match step
    case Start(c, _, _, _, _) => PcOf(s, c).Idle? || PcOf(s, c).Finished?
    case Accept(c) => PcOf(s, c).Sending? && s.owner == Selecting
    case Hand(c) => PcOf(s, c).Fetching? && s.owner.Handing?
    case ServeCached => s.owner.Serving? && s.owner.ch in s.chans && s.owner.req.kind == JoinEvent && s.owner.req.room in s.remote
    case ServePublished =>
      s.owner.Serving? && s.owner.ch in s.chans && (s.owner.req.kind == JoinEvent ==> s.owner.req.room !in s.remote)
    case ServeFailed =>
      s.owner.Serving? && s.owner.ch in s.chans && (s.owner.req.kind == JoinEvent ==> s.owner.req.room !in s.remote)
    case Timeout(c) => PcOf(s, c).Waiting?
    case Cancel(c) => PcOf(s, c).TimedOut? && s.owner == Selecting
    case Take(c) =>
      var pc := PcOf(s, c);
      (pc.Waiting? || pc.TimedOut?) && pc.ch in s.chans && s.chans[pc.ch].content != []
    case Success(id, _) =>
      s.owner == Selecting && id in s.published && (id in s.requests ==> s.requests[id] in s.chans)
    case RoomGone(_) => s.owner == Selecting
  }

  /** responseChan <- r; it blocks unless the channel is empty. */
  function Send(s: State, ch: Channel, r: Response): State
    requires ch in s.chans
  {
    var c := s.chans[ch];
    s.(chans := s.chans[ch := c.(content := c.content + [r], sends := c.sends + 1)])
  }

  function Apply(s: State, step: Step): State
    requires Enabled(s, step)
  {
    match step
    case Start(c, second, node, room, kind) => s.(pcs := s.pcs[c := Sending(Build(second, node, room, kind))])
    case Accept(c) =>
      var req := PcOf(s, c).req;
      s.(pcs := s.pcs[c := Fetching(req)], owner := Handing(req, s.next),
         chans := s.chans[s.next := Chan(c, req, [], 0)], next := s.next + 1)
    case Hand(c) => s.(pcs := s.pcs[c := Waiting(PcOf(s, c).req, s.owner.ch)], owner := Serving(s.owner.req, s.owner.ch))
    case ServeCached =>
      Send(s, s.owner.ch, Response(s.owner.req.id, Some(s.owner.req.room), false)).(owner := Selecting)
    case ServePublished =>
      var req := s.owner.req;
      if req.kind == JoinEvent then
        s.(owner := Selecting, requests := s.requests[req.id := s.owner.ch], published := s.published + {req.id})
      else Send(s, s.owner.ch, Response(req.id, None, false)).(owner := Selecting)
    case ServeFailed =>
      var req := s.owner.req;
      Send(s, s.owner.ch, Response(req.id, None, true))
      .(owner := Selecting, requests := if req.kind == ExitEvent then s.requests - {req.id} else s.requests)
    case Timeout(c) => s.(pcs := s.pcs[c := TimedOut(PcOf(s, c).req, PcOf(s, c).ch)])
    case Cancel(c) =>
      var pc := PcOf(s, c);
      s.(pcs := s.pcs[c := Finished(pc.req, pc.ch, None)], requests := s.requests - {pc.req.id})
    case Take(c) =>
      var pc := PcOf(s, c);
      var chan := s.chans[pc.ch];
      s.(pcs := s.pcs[c := Finished(pc.req, pc.ch, Some(chan.content[0]))],
         chans := s.chans[pc.ch := chan.(content := chan.content[1..])])
    case Success(id, failed) =>
      if id !in s.requests then s
      else
        var r := Response(id, if failed then None else Some(id.room), failed);
        Send(s, s.requests[id], r)
        .(requests := s.requests - {id}, remote := if failed then s.remote else s.remote + {id.room})
    case RoomGone(room) => s.(remote := s.remote - {room})
  }

  predicate IsRun(s: State, steps: seq<Step>)
    decreases |steps|
  {
    steps == [] || (Enabled(s, steps[0]) && IsRun(Apply(s, steps[0]), steps[1..]))
  }

  function After(s: State, steps: seq<Step>): State
    requires IsRun(s, steps)
    decreases |steps|
  {
    if steps == [] then s else After(Apply(s, steps[0]), steps[1..])
  }

  // ---- The invariant ----

  /** A channel holds at most one response, which answers the request it was made for. */
  predicate ChanOk(c: Chan) {
    && c.sends <= 1 && |c.content| <= c.sends
    && c.req.id.room == c.req.room
    && (c.content != [] ==> Answers(c.content[0], c.req))
  }

  /** A join is answered with its room unless it failed, an exit with no room. */
  predicate Answers(r: Response, req: Request) {
    r.id == req.id && r.room == if req.kind == JoinEvent && !r.failed then Some(req.room) else None
  }

  predicate Unused(s: State, ch: Channel) {
    ch in s.chans && s.chans[ch].sends == 0 && s.chans[ch].content == []
  }

  /** The caller holds the channel made for its own request. */
  predicate Holds(s: State, c: Caller, req: Request, ch: Channel) {
    ch in s.chans && s.chans[ch].caller == c && s.chans[ch].req == req
  }

  predicate PcOk(s: State, c: Caller, pc: Pc) {
    match pc
    case Idle => true
    case Sending(req) => req.id.room == req.room
    case Fetching(req) => s.owner.Handing? && Holds(s, c, req, s.owner.ch)
    case Waiting(req, ch) => Holds(s, c, req, ch)
    case TimedOut(req, ch) => Holds(s, c, req, ch)
    case Finished(req, ch, answer) => Holds(s, c, req, ch) && (answer.Some? ==> Answers(answer.value, req))
  }

  ghost predicate ChansOk(s: State) {
    forall ch :: ch in s.chans ==> ch < s.next && ChanOk(s.chans[ch])
  }

  ghost predicate PcsOk(s: State) {
    forall c: Caller :: PcOk(s, c, PcOf(s, c))
  }

  /** The channel being handed over or served has not been used, and goes to the caller it was made for. */
  predicate OwnerOk(s: State) {
    s.owner != Selecting ==>
      && Unused(s, s.owner.ch)
      && s.chans[s.owner.ch].req == s.owner.req
      && (s.owner.Handing? ==> PcOf(s, s.chans[s.owner.ch].caller) == Fetching(s.owner.req))
  }

  /** The channel of a join, under the id of its request. */
  predicate JoinAt(s: State, ch: Channel, id: ReqId) {
    ch in s.chans && s.chans[ch].req.id == id && s.chans[ch].req.kind == JoinEvent
  }

  /** A registered channel has not been used, is registered once, and is that of a join with the id. */
  ghost predicate RequestsOk(s: State) {
    && (forall id :: id in s.requests ==> Unused(s, s.requests[id]) && JoinAt(s, s.requests[id], id))
    && (s.owner != Selecting ==> forall id :: id in s.requests ==> s.requests[id] != s.owner.ch)
  }

  ghost predicate Inv(s: State) {
    ChansOk(s) && PcsOk(s) && OwnerOk(s) && RequestsOk(s)
  }

  lemma ChansStep(s: State, step: Step)
    requires Inv(s) && Enabled(s, step)
    ensures ChansOk(Apply(s, step))
  {
    if step.Accept? {
      assert PcOk(s, step.c, PcOf(s, step.c));
    }
  }

  /** A caller's channel stays its own. */
  lemma HoldsStep(s: State, step: Step, c: Caller, req: Request, ch: Channel)
    requires ChansOk(s) && Enabled(s, step) && Holds(s, c, req, ch)
    ensures Holds(Apply(s, step), c, req, ch)
  {
    hide ChanOk;
  }

  lemma PcStep(s: State, step: Step, c: Caller)
    requires ChansOk(s) && OwnerOk(s) && PcOk(s, c, PcOf(s, c)) && Enabled(s, step)
    requires step.Hand? ==> PcOk(s, step.c, PcOf(s, step.c))
    ensures PcOk(Apply(s, step), c, PcOf(Apply(s, step), c))
  {
    match PcOf(s, c)
    case Idle =>
    case Sending(req) =>
    case Fetching(req) => HoldsStep(s, step, c, req, s.owner.ch);
    case Waiting(req, ch) => HoldsStep(s, step, c, req, ch);
    case TimedOut(req, ch) => HoldsStep(s, step, c, req, ch);
    case Finished(req, ch, answer) => HoldsStep(s, step, c, req, ch);
  }

  lemma PcsStep(s: State, step: Step)
    requires Inv(s) && Enabled(s, step)
    ensures PcsOk(Apply(s, step))
  {
    hide RequestsOk, ChansOk, OwnerOk, PcOk, Apply, Enabled;
    forall c: Caller
      ensures PcOk(Apply(s, step), c, PcOf(Apply(s, step), c))
    {
      assert PcOk(s, c, PcOf(s, c)) && (step.Hand? ==> PcOk(s, step.c, PcOf(s, step.c)));
      PcStep(s, step, c);
    }
  }

  lemma OwnerStep(s: State, step: Step)
    requires Inv(s) && Enabled(s, step)
    ensures OwnerOk(Apply(s, step))
  {
    hide RequestsOk, Answers;
    match step
    case Start(c, _, _, _, _) => assert PcOk(s, c, PcOf(s, c));
    case Timeout(c) => assert PcOk(s, c, PcOf(s, c));
    case Take(c) => assert PcOk(s, c, PcOf(s, c));
    case _ =>
  }

  /** A registered channel is not the one a step sends to, unless it is taken off the register. */
  lemma RequestStep(s: State, step: Step, id: ReqId)
    requires ChansOk(s) && OwnerOk(s) && RequestsOk(s) && Enabled(s, step)
    requires id in s.requests && id in Apply(s, step).requests
    requires Apply(s, step).requests[id] == s.requests[id]
    ensures var t := Apply(s, step);
            && Unused(t, t.requests[id]) && JoinAt(t, t.requests[id], id)
            && (t.owner != Selecting ==> t.requests[id] != t.owner.ch)
  {
    hide ChanOk, Answers;
    assert Unused(s, s.requests[id]) && JoinAt(s, s.requests[id], id);
    if step.Success? && step.id in s.requests {
      assert JoinAt(s, s.requests[step.id], step.id);
    }
  }

  lemma RequestsStep(s: State, step: Step)
    requires Inv(s) && Enabled(s, step)
    ensures RequestsOk(Apply(s, step))
  {
    hide PcOk, Answers, ChanOk;
    var t := Apply(s, step);
    forall id | id in t.requests
      ensures Unused(t, t.requests[id]) && JoinAt(t, t.requests[id], id)
      ensures t.owner != Selecting ==> t.requests[id] != t.owner.ch
    {
      if id in s.requests && t.requests[id] == s.requests[id] {
        RequestStep(s, step, id);
      }
    }
  }

  lemma InvStep(s: State, step: Step)
    requires Inv(s) && Enabled(s, step)
    ensures Inv(Apply(s, step))
  {
    hide ChansOk, PcsOk, OwnerOk, RequestsOk, Apply, Enabled;
    ChansStep(s, step);
    PcsStep(s, step);
    OwnerStep(s, step);
    RequestsStep(s, step);
  }

  lemma {:induction false} InvAlways(s: State, steps: seq<Step>)
    requires Inv(s) && IsRun(s, steps)
    ensures Inv(After(s, steps))
    decreases |steps|
  {
    hide Inv, Enabled, Apply;
    if steps != [] {
      InvStep(s, steps[0]);
      InvAlways(Apply(s, steps[0]), steps[1..]);
    }
  }

  lemma InvInit()
    ensures Inv(INIT)
  {
  }

  /**
   In every interleaving: a caller waits on, times out on and is answered through the channel made for its own
   request, and the answer it gets carries its own request id. A join is answered with the room it asked for exactly
   when it did not fail, an exit never with a room.
   */
  lemma EachCallerItsOwn(steps: seq<Step>, c: Caller)
    requires IsRun(INIT, steps)
    ensures var s := After(INIT, steps);
            match PcOf(s, c)
            case Waiting(req, ch) => Holds(s, c, req, ch)
            case TimedOut(req, ch) => Holds(s, c, req, ch)
            case Finished(req, ch, answer) =>
              && Holds(s, c, req, ch)
              && (answer.Some? ==>
                    && answer.value.id == req.id
                    && (req.kind == JoinEvent ==>
                          && (!answer.value.failed <==> answer.value.room == Some(req.room))
                          && (answer.value.failed <==> answer.value.room == None))
                    && (req.kind == ExitEvent ==> answer.value.room == None))
            case _ => true
  {
    hide IsRun, After;
    InvInit();
    InvAlways(INIT, steps);
    var s := After(INIT, steps);
    assert PcOk(s, c, PcOf(s, c));
  }

  /** The channel a step sends a response to, if it sends one. */
  function Target(s: State, step: Step): Option<Channel>
    requires Enabled(s, step)
  {
    match step
    case ServeCached => Some(s.owner.ch)
    case ServePublished => if s.owner.req.kind == ExitEvent then Some(s.owner.ch) else None
    case ServeFailed => Some(s.owner.ch)
    case Success(id, _) => if id in s.requests then Some(s.requests[id]) else None
    case _ => None
  }

  /**
   No channel is ever sent a second response, late and duplicate success messages included, so the serving
   goroutine never blocks on one: whatever it is about to send to has not been sent to before and is empty.
   */
  lemma NeverBlocks(steps: seq<Step>, step: Step)
    requires IsRun(INIT, steps) && Enabled(After(INIT, steps), step)
    ensures var s := After(INIT, steps);
            && (forall ch :: ch in s.chans ==> s.chans[ch].sends <= 1)
            && (Target(s, step).Some? ==> Unused(s, Target(s, step).value))
  {
    hide IsRun, After;
    InvInit();
    InvAlways(INIT, steps);
    var s := After(INIT, steps);
    forall ch | ch in s.chans
      ensures s.chans[ch].sends <= 1
    {
      assert ChanOk(s.chans[ch]);
    }
  }

  /** The guards of Enabled that only keep the model's maps defined never hold a step back. */
  lemma GuardsHold(steps: seq<Step>, id: ReqId)
    requires IsRun(INIT, steps)
    ensures var s := After(INIT, steps);
            (id in s.requests ==> s.requests[id] in s.chans) && (s.owner != Selecting ==> s.owner.ch in s.chans)
  {
    hide IsRun, After;
    InvInit();
    InvAlways(INIT, steps);
  }
}
