/**
 Room actors and the relay between nodes as one system: the owner's room shows what it broadcasts to its relay
 connection, each proxy broadcasts what it takes in a room of its own, and viewers come and go everywhere.
 */
module SharedSession {
  import opened Options
  import opened Actor = Room
  import Net = CrossNode

  type EndId = Net.EndId
  type RoomId = Net.RoomId

  /**
   The room at an end of the relay, by its history. The owner's had run for a while when the relay connection
   subscribed to it; `during` is what reached it while that connection stayed, `after` what came from then on.
   */
  datatype RoomAt =
    | Owning(before: seq<Input>, relay: ConnId, during: seq<Input>, after: seq<Input>)
    | Proxying(inputs: seq<Input>)
  {
    function History(): seq<Input> {
      match this
      case Owning(b, r, d, a) => b + [Subscribe(r)] + d + a
      case Proxying(inputs) => inputs
    }
  }

  datatype System = System(net: Net.Network, rooms: map<EndId, RoomAt>)

  const INIT := System(Net.INIT, map[])

  datatype Move =
    | Own(e: EndId, room: RoomId, before: seq<Input>, relay: ConnId)  // proxyUserCon starts
    | Follow(e: EndId, room: RoomId)                                  // proxyRoom starts
    | Reach(e: EndId, input: Input)  // a broadcast of the owner's node, or a viewer coming or going at either end
    | Pass(e: EndId)                 // a proxy takes a message and broadcasts it
    | Hear(e: EndId)                 // the owner takes what a viewer typed
    | Type(e: EndId, msg: Message)
    | Leave(e: EndId)

  function Shows(e: EndId, ds: seq<Delivery>): seq<Net.Step> {
    if ds == [] then [] else Shows(e, ds[..|ds| - 1]) + [Net.Show(e, ds[|ds| - 1])]
  }

  /** What a move is on the network: a message the owner's room broadcasts is shown to the relay connection. */
  function NetSteps(s: System, m: Move): seq<Net.Step> {
    match m
    case Own(e, room, before, relay) =>
      [Net.Join(e, Net.OwnerSide, room)] + Shows(e, Greeting(Run(EMPTY, before)))
    case Follow(e, room) => [Net.Join(e, Net.ProxySide, room)]
    case Reach(e, input) =>
      if e in s.net.ends && s.net.ends[e].open && s.net.ends[e].side == Net.OwnerSide && input.Broadcast?
      then [Net.Show(e, Deliver(input.msg))] else []
    case Pass(e) => [Net.Take(e)]
    case Hear(e) => [Net.Take(e)]
    case Type(e, msg) => [Net.Type(e, msg)]
    case Leave(e) => [Net.Close(e)]
  }

  predicate Enabled(s: System, m: Move) {
    && Net.IsRun(s.net, NetSteps(s, m))
    && match m
       case Own(_, _, before, relay) => Run(EMPTY, before).running && Subscribe(relay) !in before
       case Follow(_, _) => true
       case Reach(e, input) =>
         && e in s.rooms
         && (match s.rooms[e]
             case Owning(_, relay, _, _) => input != Subscribe(relay) && input != Unsubscribe(relay)
             case Proxying(_) => !input.Broadcast?)
       case Pass(e) => e in s.rooms && s.rooms[e].Proxying?
       case Hear(e) => e in s.rooms && s.rooms[e].Owning?
       case Type(_, _) => true
       case Leave(e) => e in s.rooms
  }

  function NewRooms(s: System, m: Move): map<EndId, RoomAt>
    requires Enabled(s, m)
  {
    match m
    case Own(e, _, before, relay) => s.rooms[e := Owning(before, relay, [], [])]
    case Follow(e, _) => s.rooms[e := Proxying([])]
    case Reach(e, input) =>
      var r := s.rooms[e];
      s.rooms[e := match r
                   case Owning(_, _, during, after) =>
                     if e in s.net.ends && s.net.ends[e].open then r.(during := during + [input])
                     else r.(after := after + [input])
                   case Proxying(inputs) => Proxying(inputs + [input])]
    case Pass(e) =>
      if e in s.net.ends && s.net.ends[e].queue != [] then
        s.rooms[e := Proxying(s.rooms[e].inputs + [Broadcast(s.net.ends[e].queue[0].msg)])]
      else s.rooms
    case Leave(e) =>
      match s.rooms[e] {
        case Owning(b, relay, d, after) => s.rooms[e := Owning(b, relay, d, after + [Unsubscribe(relay)])]
        case Proxying(_) => s.rooms
      }
    case _ => s.rooms
  }

  function Apply(s: System, m: Move): System
    requires Enabled(s, m)
  {
    System(Net.After(s.net, NetSteps(s, m)), NewRooms(s, m))
  }

  predicate IsRun(s: System, moves: seq<Move>)
    decreases |moves|
  {
    moves == [] || (Enabled(s, moves[0]) && IsRun(Apply(s, moves[0]), moves[1..]))
  }

  function After(s: System, moves: seq<Move>): System
    requires IsRun(s, moves)
    decreases |moves|
  {
    if moves == [] then s else After(Apply(s, moves[0]), moves[1..])
  }

  // ---- The network of a run of the system is that of a run of its own ----

  function AllSteps(s: System, moves: seq<Move>): seq<Net.Step>
    requires IsRun(s, moves)
    decreases |moves|
  {
    if moves == [] then [] else NetSteps(s, moves[0]) + AllSteps(Apply(s, moves[0]), moves[1..])
  }

  lemma {:induction false} NetRuns(s: System, moves: seq<Move>)
    requires IsRun(s, moves)
    ensures Net.IsRun(s.net, AllSteps(s, moves)) && Net.After(s.net, AllSteps(s, moves)) == After(s, moves).net
    decreases |moves|
  {
    hide NetSteps, NewRooms, Net.IsRun, Net.After;
    if moves == [] {
      NetStays(s.net);
    } else {
      var t := Apply(s, moves[0]);
      NetRuns(t, moves[1..]);
      Net.RunThen(s.net, NetSteps(s, moves[0]), AllSteps(t, moves[1..]));
    }
  }

  lemma NetStays(n: Net.Network)
    ensures Net.IsRun(n, []) && Net.After(n, []) == n
  {
  }

  // ---- How a step of the network changes its ends ----

  /** Two ends agree on everything but the queue. */
  predicate Alike(a: Net.End, b: Net.End) {
    a.side == b.side && a.room == b.room && a.open == b.open && a.since == b.since && a.delivered == b.delivered && a.shown == b.shown
  }

  /** What one step makes of an end that is already there. */
  function EndAfter(end: Net.End, e: EndId, step: Net.Step): Net.End {
    match step
    case Show(f, d) => if e == f then end.(shown := end.shown + [d]) else end
    case Take(f) => if e == f && end.queue != [] then end.(delivered := end.delivered + [end.queue[0]]) else end
    case Close(f) => if e == f then end.(open := false) else end
    case _ => end
  }

  lemma NetStepEnds(n: Net.Network, step: Net.Step)
    requires Net.Enabled(n, step)
    ensures var t := Net.Apply(n, step);
            && t.ends.Keys == n.ends.Keys + (if step.Join? then {step.e} else {})
            && (forall e :: e in n.ends ==> Alike(t.ends[e], EndAfter(n.ends[e], e, step)))
  {
    hide Net.ReadName, Net.WriteName;
  }

  lemma OneStepRun(n: Net.Network, step: Net.Step)
    requires Net.IsRun(n, [step])
    ensures Net.Enabled(n, step) && Net.After(n, [step]) == Net.Apply(n, step)
  {
    assert [step][1..] == [];
  }

  lemma {:induction false} ShowsEnds(n: Net.Network, e: EndId, ds: seq<Delivery>)
    requires Net.IsRun(n, Shows(e, ds))
    ensures var t := Net.After(n, Shows(e, ds));
            && t.ends.Keys == n.ends.Keys
            && (forall f :: f in n.ends ==>
                  Alike(t.ends[f], if e == f then n.ends[f].(shown := n.ends[f].shown + ds) else n.ends[f]))
    decreases |ds|
  {
    hide Net.IsRun, Net.After, Net.Apply, Net.Enabled;
    if ds == [] {
      NetStays(n);
    } else {
      var init, d := ds[..|ds| - 1], ds[|ds| - 1];
      Net.RunThen(n, Shows(e, init), [Net.Show(e, d)]);
      ShowsEnds(n, e, init);
      var u := Net.After(n, Shows(e, init));
      OneStepRun(u, Net.Show(e, d));
      NetStepEnds(u, Net.Show(e, d));
      assert ds == init + [d];
    }
  }

  // ---- The bodies written to a connection ----

  /** The bodies a connection's Write is given; a ping is a Write of nothing. */
  function Written(ds: seq<Delivery>): seq<Body> {
    if ds == [] then []
    else Written(ds[..|ds| - 1]) +
         match ds[|ds| - 1]
         case Wrote(body) => [body]
         case Pinged => [""]
         case _ => []
  }

  /** The bodies of the data messages. */
  function Bodies(msgs: seq<Message>): seq<Body> {
    if msgs == [] then []
    else Bodies(msgs[..|msgs| - 1]) + if msgs[|msgs| - 1].event == DataEvent then [msgs[|msgs| - 1].body] else []
  }

  predicate NoPing(msgs: seq<Message>) {
    forall i :: 0 <= i < |msgs| ==> msgs[i].event != PingEvent
  }

  /** What a room hands out: data and pings are written, everything else is passed on as it is. */
  predicate Handed(ds: seq<Delivery>) {
    forall i :: 0 <= i < |ds| && ds[i].Told? ==> ds[i].msg.event != DataEvent && ds[i].msg.event != PingEvent
  }

  lemma {:induction false} WrittenAppend(a: seq<Delivery>, b: seq<Delivery>)
    ensures Written(a + b) == Written(a) + Written(b)
    decreases |b|
  {
    if b == [] {
      assert a + b == a;
    } else {
      assert (a + b)[..|a + b| - 1] == a + b[..|b| - 1];
      WrittenAppend(a, b[..|b| - 1]);
    }
  }

  lemma {:induction false} BodiesAppend(a: seq<Message>, b: seq<Message>)
    ensures Bodies(a + b) == Bodies(a) + Bodies(b)
    decreases |b|
  {
    if b == [] {
      assert a + b == a;
    } else {
      assert (a + b)[..|a + b| - 1] == a + b[..|b| - 1];
      BodiesAppend(a, b[..|b| - 1]);
    }
  }

  /** Relayed and read as messages again, the data bodies are those written. */
  lemma {:induction false} RelayedBodies(ds: seq<Delivery>)
    requires Handed(ds)
    ensures Bodies(Net.Messages(ds)) == Written(ds) && NoPing(Net.Messages(ds))
  {
    if ds != [] {
      var init, d := ds[..|ds| - 1], ds[|ds| - 1];
      assert Handed(init);
      RelayedBodies(init);
      assert Net.Messages(ds) == Net.Messages(init) + [Net.AsMessage(d)];
      assert Net.Messages(ds)[..|Net.Messages(ds)| - 1] == Net.Messages(init);
    }
  }

  lemma {:induction false} DeliveredBodies(msgs: seq<Message>)
    ensures Handed(Deliveries(msgs))
    ensures NoPing(msgs) ==> Written(Deliveries(msgs)) == Bodies(msgs)
  {
    if msgs != [] {
      var init, m := msgs[..|msgs| - 1], msgs[|msgs| - 1];
      DeliveredBodies(init);
      assert Deliveries(msgs) == Deliveries(init) + [Deliver(m)];
      assert Deliveries(msgs)[..|Deliveries(msgs)| - 1] == Deliveries(init);
      assert NoPing(msgs) ==> NoPing(init) && m.event != PingEvent;
    }
  }

  lemma {:induction false} ReplayedBodies(msgs: seq<Message>)
    ensures Handed(Writes(msgs)) && |Written(Writes(msgs))| == |msgs|
    ensures forall i :: 0 <= i < |msgs| ==> Written(Writes(msgs))[i] == msgs[i].body
  {
    if msgs != [] {
      ReplayedBodies(msgs[1..]);
      var head := [Wrote(msgs[0].body)];
      WrittenAppend(head, Writes(msgs[1..]));
      assert head[..0] == [];
      assert Written(head) == [msgs[0].body];
    }
  }

  lemma {:induction false} DataBodies(msgs: seq<Message>)
    ensures |Bodies(msgs)| == |DataOf(msgs)|
    ensures forall i :: 0 <= i < |DataOf(msgs)| ==> Bodies(msgs)[i] == DataOf(msgs)[i].body
  {
    if msgs != [] {
      DataBodies(msgs[..|msgs| - 1]);
    }
  }

  lemma LastBodies(msgs: seq<Message>)
    ensures Written(Writes(LastN(RECENT, DataOf(msgs)))) == LastN(RECENT, Bodies(msgs))
  {
    ReplayedBodies(LastN(RECENT, DataOf(msgs)));
    DataBodies(msgs);
  }

  // ---- What one connection of a room is written ----

  /** The part of a history during which a connection is subscribed, once: it comes, stays and perhaps leaves. */
  predicate Stays(before: seq<Input>, id: ConnId, during: seq<Input>, after: seq<Input>) {
    && Run(EMPTY, before).running
    && Subscribe(id) !in before && Subscribe(id) !in during && Unsubscribe(id) !in during && Subscribe(id) !in after
    && (after == [] || after[0] == Unsubscribe(id))
  }

  lemma StaysLog(before: seq<Input>, id: ConnId, during: seq<Input>, after: seq<Input>)
    requires Stays(before, id, during, after)
    ensures LogOf(Run(EMPTY, before + [Subscribe(id)] + during + after).log, id) ==
            Greeting(Run(EMPTY, before)) + Deliveries(Broadcasts(during))
    ensures Run(EMPTY, before + [Subscribe(id)] + during).running
    ensures id in Run(EMPTY, before + [Subscribe(id)] + during).conns
  {
    hide Run, Greeting, Deliveries, Broadcasts;
    StartsAbsent(id);
    NoDeliveries(EMPTY, id, before);
    var r := Run(EMPTY, before);
    SubscribeStep(r, id);
    var h := before + [Subscribe(id)];
    RunSnoc(EMPTY, before, Subscribe(id));
    LiveDeliveries(Run(EMPTY, h), id, during);
    RunAppend(EMPTY, h, during);
    assert [] + Greeting(r) == Greeting(r);
    if after == [] {
      assert h + during + after == h + during;
    } else {
      LeavesLog(h + during, id, after);
    }
  }

  lemma LeavesLog(h: seq<Input>, id: ConnId, after: seq<Input>)
    requires after != [] && after[0] == Unsubscribe(id) && Subscribe(id) !in after && Run(EMPTY, h).running
    ensures LogOf(Run(EMPTY, h + after).log, id) == LogOf(Run(EMPTY, h).log, id)
  {
    hide Run;
    assert h + after == (h + [after[0]]) + after[1..];
    RunSnoc(EMPTY, h, after[0]);
    UnsubscribeStep(Run(EMPTY, h), id);
    NoDeliveries(Run(EMPTY, h + [after[0]]), id, after[1..]);
    RunAppend(EMPTY, h + [after[0]], after[1..]);
  }

  /** Where the stretch written to a newcomer begins: five data messages back, or at the first. */
  function StretchStart(before: seq<Input>): nat {
    var n := |Bodies(Broadcasts(before))|;
    if n <= RECENT then 0 else n - RECENT
  }

  lemma StartInside(before: seq<Input>, more: seq<Message>)
    ensures StretchStart(before) <= |Bodies(Broadcasts(before) + more)|
  {
    BodiesAppend(Broadcasts(before), more);
  }

  /** The data bodies broadcast before and then, from five before the end of the former on. */
  function FromFiveBack(before: seq<Input>, more: seq<Message>): seq<Body> {
    StartInside(before, more);
    Bodies(Broadcasts(before) + more)[StretchStart(before)..]
  }

  /**
   Replay and live part join without gap or repeat: all bodies written to a connection are one stretch of the data
   bodies broadcast in the room, from five before it came to when it left.
   */
  lemma WrittenIsStretch(before: seq<Input>, id: ConnId, during: seq<Input>, after: seq<Input>)
    requires Stays(before, id, during, after) && NoPing(Broadcasts(during))
    ensures Written(LogOf(Run(EMPTY, before + [Subscribe(id)] + during + after).log, id)) ==
            FromFiveBack(before, Broadcasts(during))
  {
    hide Stays, Run, Deliveries, Broadcasts, Writes, DataOf;
    StaysLog(before, id, during, after);
    StaysRuns(before, id, during, after);
    GreetingBodies(before);
    DeliveredBodies(Broadcasts(during));
    WrittenAppend(Greeting(Run(EMPTY, before)), Deliveries(Broadcasts(during)));
    BodiesAppend(Broadcasts(before), Broadcasts(during));
    var b, d := Bodies(Broadcasts(before)), Bodies(Broadcasts(during));
    assert (b + d)[StretchStart(before)..] == b[StretchStart(before)..] + d;
  }

  lemma StaysRuns(before: seq<Input>, id: ConnId, during: seq<Input>, after: seq<Input>)
    requires Stays(before, id, during, after)
    ensures Run(EMPTY, before).running
  {
  }

  /** The greeting writes the last five data bodies, and nothing else. */
  lemma GreetingBodies(before: seq<Input>)
    requires Run(EMPTY, before).running
    ensures Handed(Greeting(Run(EMPTY, before)))
    ensures Written(Greeting(Run(EMPTY, before))) == Bodies(Broadcasts(before))[StretchStart(before)..]
  {
    hide Run, Broadcasts, Writes, DataOf, Bodies, Written;
    var s := Run(EMPTY, before);
    RecentIsLastData(before);
    LastBodies(Broadcasts(before));
    ReplayedBodies(s.recent);
    var notice, users := ZmodemNotice(s.zmodem), [ToldUsers(s.online)];
    WrittenAppend(notice + Writes(s.recent), users);
    WrittenAppend(notice, Writes(s.recent));
    NothingWritten(notice);
    NothingWritten(users);
  }

  lemma NothingWritten(ds: seq<Delivery>)
    requires |ds| <= 1 && forall i :: 0 <= i < |ds| ==> ds[i].Told? || ds[i].ToldUsers?
    ensures Written(ds) == []
  {
    if |ds| == 1 {
      assert ds[..0] == [];
    }
  }

  // ---- The invariant ----

  /** The relay connection was handed what the network has it shown. */
  predicate OwnerTied(end: Net.End, r: RoomAt)
    requires r.Owning?
  {
    && end.side == Net.OwnerSide
    && end.shown == Greeting(Run(EMPTY, r.before)) + Deliveries(Broadcasts(r.during))
    && Stays(r.before, r.relay, r.during, r.after)
    && (end.open <==> r.after == [])
  }

  /** The proxy's room was broadcast what the network delivered. */
  predicate ProxyTied(end: Net.End, r: RoomAt)
    requires r.Proxying?
  {
    end.side == Net.ProxySide && Net.Contents(end.delivered) == Broadcasts(r.inputs)
  }

  predicate Tied(end: Net.End, r: RoomAt) {
    if r.Owning? then OwnerTied(end, r) else ProxyTied(end, r)
  }

  ghost predicate Inv(s: System) {
    s.rooms.Keys == s.net.ends.Keys && forall e :: e in s.rooms ==> Tied(s.net.ends[e], s.rooms[e])
  }

  lemma AlikeTied(a: Net.End, b: Net.End, r: RoomAt)
    requires Alike(a, b) && Tied(b, r)
    ensures Tied(a, r)
  {
    hide Run, Greeting, Deliveries, Broadcasts, Stays;
  }

  lemma BroadcastsSnoc(h: seq<Input>, i: Input)
    ensures Broadcasts(h + [i]) == Broadcasts(h) + if i.Broadcast? then [i.msg] else []
    ensures i.Broadcast? ==> Deliveries(Broadcasts(h) + [i.msg]) == Deliveries(Broadcasts(h)) + [Deliver(i.msg)]
  {
    assert (h + [i])[..|h|] == h;
    if i.Broadcast? {
      DataSnoc(Broadcasts(h), i.msg);
    }
  }

  lemma ReachTied(end: Net.End, r: RoomAt, i: Input)
    requires Tied(end, r)
    requires r.Owning? ==> i != Subscribe(r.relay) && i != Unsubscribe(r.relay)
    requires r.Proxying? ==> !i.Broadcast?
    ensures match r
            case Owning(_, _, during, after) =>
              if end.open
              then Tied(end.(shown := end.shown + if i.Broadcast? then [Deliver(i.msg)] else []), r.(during := during + [i]))
              else Tied(end, r.(after := after + [i]))
            case Proxying(inputs) => Tied(end, Proxying(inputs + [i]))
  {
    hide Run, Greeting, Deliveries, Broadcasts;
    match r
    case Owning(before, _, during, after) =>
      BroadcastsSnoc(during, i);
      if i.Broadcast? {
        assert end.shown + [Deliver(i.msg)] ==
               Greeting(Run(EMPTY, before)) + (Deliveries(Broadcasts(during)) + [Deliver(i.msg)]);
      } else {
        assert end.shown + [] == end.shown && Broadcasts(during) + [] == Broadcasts(during);
      }
    case Proxying(inputs) =>
      BroadcastsSnoc(inputs, i);
  }

  lemma PassTied(end: Net.End, inputs: seq<Input>, m: Net.Sent)
    requires Tied(end, Proxying(inputs))
    ensures Tied(end.(delivered := end.delivered + [m]), Proxying(inputs + [Broadcast(m.msg)]))
  {
    BroadcastsSnoc(inputs, Broadcast(m.msg));
  }

  lemma LeaveTied(end: Net.End, r: RoomAt)
    requires Tied(end, r) && end.open
    ensures match r
            case Owning(_, relay, _, after) => Tied(end.(open := false), r.(after := after + [Unsubscribe(relay)]))
            case Proxying(_) => Tied(end.(open := false), r)
  {
    hide Run, Greeting, Deliveries, Broadcasts;
  }

  /** One step of the network at one end, and the room there moved along with it: the others are left alone. */
  lemma StepTied(s: System, t: System, step: Net.Step, e: EndId)
    requires Inv(s) && Net.Enabled(s.net, step) && !step.Join? && t.net == Net.Apply(s.net, step)
    requires e in s.rooms && t.rooms.Keys == s.rooms.Keys && forall f :: f in s.rooms && f != e ==> t.rooms[f] == s.rooms[f]
    requires forall f :: f in s.net.ends && f != e ==> EndAfter(s.net.ends[f], f, step) == s.net.ends[f]
    requires Tied(EndAfter(s.net.ends[e], e, step), t.rooms[e])
    ensures Inv(t)
  {
    hide Tied, Net.Apply, Net.Enabled, EndAfter, Alike;
    NetStepEnds(s.net, step);
    forall f | f in t.rooms
      ensures Tied(t.net.ends[f], t.rooms[f])
    {
      AlikeTied(t.net.ends[f], EndAfter(s.net.ends[f], f, step), t.rooms[f]);
    }
  }

  lemma StaysFromStart(before: seq<Input>, relay: ConnId)
    requires Run(EMPTY, before).running && Subscribe(relay) !in before
    ensures Stays(before, relay, [], []) && Deliveries(Broadcasts([])) == []
  {
  }

  lemma OwnStep(s: System, m: Move)
    requires Inv(s) && Enabled(s, m) && m.Own?
    ensures Inv(Apply(s, m))
  {
    hide Run, Greeting, Deliveries, Broadcasts, Stays, Net.IsRun, Net.After, Net.Apply, Net.Enabled, Alike;
    var ds := Greeting(Run(EMPTY, m.before));
    var join := Net.Join(m.e, Net.OwnerSide, m.room);
    Net.RunThen(s.net, [join], Shows(m.e, ds));
    OneStepRun(s.net, join);
    var u := Net.Apply(s.net, join);
    NetStepEnds(s.net, join);
    JoinEnd(s.net, join);
    ShowsEnds(u, m.e, ds);
    StaysFromStart(m.before, m.relay);
    var t := Apply(s, m);
    forall f | f in t.rooms
      ensures Tied(t.net.ends[f], t.rooms[f])
    {
      if f == m.e {
        OwnTied(t.net.ends[f], u.ends[f], m.before, m.relay);
      } else {
        AlikeTied(u.ends[f], s.net.ends[f], s.rooms[f]);
        AlikeTied(t.net.ends[f], u.ends[f], s.rooms[f]);
      }
    }
  }

  /** An end as it starts. */
  lemma JoinEnd(n: Net.Network, step: Net.Step)
    requires Net.Enabled(n, step) && step.Join?
    ensures step.e !in n.ends
    ensures var t := Net.Apply(n, step);
            && step.e in t.ends && t.ends[step.e].side == step.side && t.ends[step.e].open
            && t.ends[step.e].delivered == [] && t.ends[step.e].shown == []
  {
    hide Net.ReadName, Net.WriteName;
  }

  lemma OwnTied(end: Net.End, joined: Net.End, before: seq<Input>, relay: ConnId)
    requires joined.side == Net.OwnerSide && joined.open && joined.shown == []
    requires Alike(end, joined.(shown := joined.shown + Greeting(Run(EMPTY, before))))
    requires Stays(before, relay, [], []) && Deliveries(Broadcasts([])) == []
    ensures Tied(end, Owning(before, relay, [], []))
  {
    hide Run, Greeting, Deliveries, Broadcasts, Stays;
  }

  lemma FollowStep(s: System, m: Move)
    requires Inv(s) && Enabled(s, m) && m.Follow?
    ensures Inv(Apply(s, m))
  {
    hide Net.IsRun, Net.After, Net.Apply, Net.Enabled, Alike, OwnerTied;
    var join := Net.Join(m.e, Net.ProxySide, m.room);
    OneStepRun(s.net, join);
    NetStepEnds(s.net, join);
    JoinEnd(s.net, join);
    var t := Apply(s, m);
    forall f | f in t.rooms
      ensures Tied(t.net.ends[f], t.rooms[f])
    {
      if f != m.e {
        AlikeTied(t.net.ends[f], s.net.ends[f], s.rooms[f]);
      }
    }
  }

  lemma ReachStep(s: System, m: Move)
    requires Inv(s) && Enabled(s, m) && m.Reach?
    ensures Inv(Apply(s, m))
  {
    hide Net.IsRun, Net.After, Net.Apply, Net.Enabled, OwnerTied, ProxyTied;
    var t := Apply(s, m);
    var end := s.net.ends[m.e];
    ReachTied(end, s.rooms[m.e], m.input);
    if end.open && end.side == Net.OwnerSide && m.input.Broadcast? {
      var step := Net.Show(m.e, Deliver(m.input.msg));
      OneStepRun(s.net, step);
      OwningSide(end, s.rooms[m.e]);
      StepTied(s, t, step, m.e);
    } else {
      NetStays(s.net);
      OwningSide(end, s.rooms[m.e]);
      assert end.shown + [] == end.shown;
      forall f | f in t.rooms
        ensures Tied(t.net.ends[f], t.rooms[f])
      {
      }
    }
  }

  lemma OwningSide(end: Net.End, r: RoomAt)
    requires Tied(end, r)
    ensures r.Owning? <==> end.side == Net.OwnerSide
  {
  }

  lemma EndStep(s: System, m: Move)
    requires Inv(s) && Enabled(s, m) && (m.Pass? || m.Hear? || m.Type? || m.Leave?)
    ensures Inv(Apply(s, m))
  {
    hide Net.IsRun, Net.After, Net.Apply, OwnerTied, ProxyTied;
    var t := Apply(s, m);
    OneStepRun(s.net, NetSteps(s, m)[0]);
    var end := s.net.ends[m.e];
    match m
    case Pass(e) =>
      PassTied(end, s.rooms[e].inputs, end.queue[0]);
      StepTied(s, t, Net.Take(e), e);
    case Hear(e) =>
      AlikeOwner(end, end.(delivered := end.delivered + [end.queue[0]]), s.rooms[e]);
      StepTied(s, t, Net.Take(e), e);
    case Type(e, msg) =>
      StepTied(s, t, Net.Type(e, msg), e);
    case Leave(e) =>
      LeaveTied(end, s.rooms[e]);
      StepTied(s, t, Net.Close(e), e);
    case _ =>
  }

  /** What the owner hears is no business of its room's connections. */
  lemma AlikeOwner(a: Net.End, b: Net.End, r: RoomAt)
    requires Tied(a, r) && r.Owning? && b == a.(delivered := b.delivered)
    ensures Tied(b, r)
  {
    hide Run, Greeting, Deliveries, Broadcasts, Stays;
  }

  lemma InvStep(s: System, m: Move)
    requires Inv(s) && Enabled(s, m)
    ensures Inv(Apply(s, m))
  {
    hide Inv, Enabled, Apply;
    match m
    case Own(_, _, _, _) => OwnStep(s, m);
    case Follow(_, _) => FollowStep(s, m);
    case Reach(_, _) => ReachStep(s, m);
    case _ => EndStep(s, m);
  }

  lemma {:induction false} InvAlways(s: System, moves: seq<Move>)
    requires Inv(s) && IsRun(s, moves)
    ensures Inv(After(s, moves))
    decreases |moves|
  {
    hide Inv, Enabled, Apply;
    if moves != [] {
      InvStep(s, moves[0]);
      InvAlways(Apply(s, moves[0]), moves[1..]);
    }
  }

  // ---- The main results ----

  /** An owner and a proxy of one room. */
  predicate Linked(s: System, owner: EndId, proxy: EndId) {
    && owner in s.net.ends && proxy in s.net.ends && owner in s.rooms && proxy in s.rooms
    && s.net.ends[owner].side == Net.OwnerSide && s.net.ends[proxy].side == Net.ProxySide
    && s.net.ends[owner].room == s.net.ends[proxy].room
    && s.rooms[owner].Owning? && s.rooms[proxy].Proxying?
  }

  /** `part` is what lies between two places of `whole`. */
  predicate Stretch(part: seq<Body>, whole: seq<Body>, from: nat) {
    from + |part| <= |whole| && part == whole[from..from + |part|]
  }

  /**
   What the relay connection was handed, in every run: the owner's room wrote to it one stretch of the data bodies it
   broadcast, from five before the connection came on, provided no ping was broadcast meanwhile.
   */
  lemma RelayHearsRoom(moves: seq<Move>, owner: EndId)
    requires IsRun(INIT, moves)
    requires owner in After(INIT, moves).rooms && After(INIT, moves).rooms[owner].Owning?
    ensures var s := After(INIT, moves);
            var r := s.rooms[owner];
            && owner in s.net.ends
            && s.net.ends[owner].shown == LogOf(Run(EMPTY, r.History()).log, r.relay)
            && (NoPing(Broadcasts(r.during)) ==>
                  Written(s.net.ends[owner].shown) == FromFiveBack(r.before, Broadcasts(r.during)))
  {
    hide IsRun, After, Run, Greeting, Deliveries, Broadcasts, Bodies, Written, Stays;
    InvAlways(INIT, moves);
    var s := After(INIT, moves);
    var r := s.rooms[owner];
    assert Tied(s.net.ends[owner], r);
    StaysLog(r.before, r.relay, r.during, r.after);
    if NoPing(Broadcasts(r.during)) {
      WrittenIsStretch(r.before, r.relay, r.during, r.after);
    }
  }

  /**
   The cross-node promise, in every run: everything written to a viewer of a proxy's room, replay included, is one
   stretch of what the owner's room wrote to its relay connection, each body once and in order.
   */
  lemma ViewerHearsOwner(moves: seq<Move>, owner: EndId, proxy: EndId,
                         before: seq<Input>, viewer: ConnId, during: seq<Input>, after: seq<Input>)
    requires IsRun(INIT, moves) && Linked(After(INIT, moves), owner, proxy)
    requires After(INIT, moves).rooms[proxy].inputs == before + [Subscribe(viewer)] + during + after
    requires Stays(before, viewer, during, after)
    ensures var s := After(INIT, moves);
            exists from: nat ::
              Stretch(Written(LogOf(Run(EMPTY, s.rooms[proxy].inputs).log, viewer)), Written(s.net.ends[owner].shown), from)
  {
    hide IsRun, After, Run, Greeting, Deliveries, Broadcasts, Bodies, Written, Stays, Stretch, Handed;
    InvAlways(INIT, moves);
    ProxyHears(moves, owner, proxy);
    var s := After(INIT, moves);
    var shown, p := s.net.ends[owner].shown, s.net.ends[proxy];
    ShownIsHanded(s.net.ends[owner], s.rooms[owner]);
    RelayedBodies(shown);
    var all, got := Net.Messages(shown), Broadcasts(s.rooms[proxy].inputs);
    assert all == all[..p.since] + got + all[p.since..][|got|..];
    ViewerPart(before, viewer, during, after, all[..p.since], all[p.since..][|got|..]);
  }

  /**
   All a viewer of a proxy's room is handed, in every run: the greeting and then, each once and in order, a contiguous
   stretch of what the owner's room showed its relay connection, no further than the proxy has taken it.
   */
  lemma ViewerFollowsOwner(moves: seq<Move>, owner: EndId, proxy: EndId,
                           before: seq<Input>, viewer: ConnId, during: seq<Input>, after: seq<Input>)
    requires IsRun(INIT, moves) && Linked(After(INIT, moves), owner, proxy)
    requires After(INIT, moves).rooms[proxy].inputs == before + [Subscribe(viewer)] + during + after
    requires Stays(before, viewer, during, after)
    ensures var s := After(INIT, moves);
            var p, all := s.net.ends[proxy], Net.Messages(s.net.ends[owner].shown);
            var from := p.since + |Broadcasts(before)|;
            var to := from + |Broadcasts(during)|;
            && to <= p.since + |p.delivered| <= |all|
            && LogOf(Run(EMPTY, s.rooms[proxy].inputs).log, viewer) ==
                 Greeting(Run(EMPTY, before)) + Deliveries(all[from..to])
  {
    hide IsRun, After, Run, Greeting, Deliveries, Broadcasts, Stays, LogOf, Net.Messages;
    ProxyHears(moves, owner, proxy);
    var s := After(INIT, moves);
    var p, all := s.net.ends[proxy], Net.Messages(s.net.ends[owner].shown);
    ViewerBroadcasts(before, viewer, during, after);
    MiddleOf(all, p.since, Broadcasts(before), Broadcasts(during), Broadcasts(after));
    StaysLog(before, viewer, during, after);
  }

  /** What the proxy's room was broadcast is what the owner's room showed, from the subscription on. */
  lemma ProxyHears(moves: seq<Move>, owner: EndId, proxy: EndId)
    requires IsRun(INIT, moves) && Linked(After(INIT, moves), owner, proxy)
    ensures var s := After(INIT, moves);
            var p, all := s.net.ends[proxy], Net.Messages(s.net.ends[owner].shown);
            && p.since <= |all|
            && |p.delivered| == |Broadcasts(s.rooms[proxy].inputs)|
            && Broadcasts(s.rooms[proxy].inputs) <= all[p.since..]
  {
    hide IsRun, After, Broadcasts, OwnerTied, Net.Messages;
    InvAlways(INIT, moves);
    var s := After(INIT, moves);
    assert Tied(s.net.ends[proxy], s.rooms[proxy]);
    NetRuns(INIT, moves);
    Net.ProxyFollowsOwner(AllSteps(INIT, moves), owner, proxy);
  }

  lemma MiddleOf(all: seq<Message>, since: nat, b: seq<Message>, d: seq<Message>, a: seq<Message>)
    requires since <= |all| && b + d + a <= all[since..]
    ensures since + |b| + |d| <= |all| && all[since + |b|..since + |b| + |d|] == d
  {
    var rest := all[since..];
    assert rest[..|b + d + a|][|b|..|b| + |d|] == d;
  }

  lemma ViewerBroadcasts(before: seq<Input>, viewer: ConnId, during: seq<Input>, after: seq<Input>)
    ensures Broadcasts(before + [Subscribe(viewer)] + during + after) == Broadcasts(before) + Broadcasts(during) + Broadcasts(after)
  {
    hide Broadcasts;
    BroadcastsAppend(before, [Subscribe(viewer)]);
    BroadcastsAppend(before + [Subscribe(viewer)], during);
    BroadcastsAppend(before + [Subscribe(viewer)] + during, after);
    NoBroadcast(Subscribe(viewer));
    assert Broadcasts(before) + [] == Broadcasts(before);
  }

  lemma ShownIsHanded(end: Net.End, r: RoomAt)
    requires Tied(end, r) && r.Owning?
    ensures Handed(end.shown)
  {
    hide Run, Greeting, Deliveries, Broadcasts;
    GreetingBodies(r.before);
    DeliveredBodies(Broadcasts(r.during));
  }

  /** The proxy's room was broadcast a part of what was relayed; its viewer is written a part of that. */
  lemma ViewerPart(before: seq<Input>, viewer: ConnId, during: seq<Input>, after: seq<Input>, head: seq<Message>, tail: seq<Message>)
    requires Stays(before, viewer, during, after)
    requires var h := before + [Subscribe(viewer)] + during + after;
             NoPing(head + Broadcasts(h) + tail)
    ensures var h := before + [Subscribe(viewer)] + during + after;
            exists from: nat :: Stretch(Written(LogOf(Run(EMPTY, h).log, viewer)), Bodies(head + Broadcasts(h) + tail), from)
  {
    hide Run, Stays, Broadcasts, Bodies, Written, NoPing;
    var h := before + [Subscribe(viewer)] + during + after;
    var b, d, a := Broadcasts(before), Broadcasts(during), Broadcasts(after);
    ViewerBroadcasts(before, viewer, during, after);
    assert head + Broadcasts(h) + tail == (head + b) + d + (a + tail);
    NoPingPart(head + b, d, a + tail);
    WrittenIsStretch(before, viewer, during, after);
    BodiesAppend(head, b + d);
    BodiesAppend(head + (b + d), a + tail);
    assert head + Broadcasts(h) + tail == (head + (b + d)) + (a + tail);
    StartInside(before, d);
    StretchOf(Bodies(head), Bodies(b + d), Bodies(a + tail), StretchStart(before));
  }

  lemma {:induction false} BroadcastsAppend(a: seq<Input>, b: seq<Input>)
    ensures Broadcasts(a + b) == Broadcasts(a) + Broadcasts(b)
    decreases |b|
  {
    if b == [] {
      assert a + b == a;
    } else {
      assert (a + b)[..|a + b| - 1] == a + b[..|b| - 1];
      BroadcastsAppend(a, b[..|b| - 1]);
    }
  }

  lemma NoBroadcast(i: Input)
    requires !i.Broadcast?
    ensures Broadcasts([i]) == []
  {
    assert [i][..0] == [];
  }

  lemma NoPingPart(a: seq<Message>, b: seq<Message>, c: seq<Message>)
    requires NoPing(a + b + c)
    ensures NoPing(b)
  {
    forall i | 0 <= i < |b|
      ensures b[i].event != PingEvent
    {
      assert b[i] == (a + b + c)[|a| + i];
    }
  }

  lemma StretchOf(a: seq<Body>, b: seq<Body>, c: seq<Body>, k: nat)
    requires k <= |b|
    ensures Stretch(b[k..], a + b + c, |a| + k)
  {
    var whole := a + b + c;
    assert whole[|a| + k..|a| + |b|] == b[k..];
  }

  /**
   Both together: without pings a viewer on another node is written one stretch of the data bodies broadcast in the
   owner's room.
   */
  lemma ViewerHearsRoom(moves: seq<Move>, owner: EndId, proxy: EndId,
                        before: seq<Input>, viewer: ConnId, during: seq<Input>, after: seq<Input>)
    requires IsRun(INIT, moves) && Linked(After(INIT, moves), owner, proxy)
    requires After(INIT, moves).rooms[proxy].inputs == before + [Subscribe(viewer)] + during + after
    requires Stays(before, viewer, during, after)
    requires NoPing(Broadcasts(After(INIT, moves).rooms[owner].during))
    ensures var s := After(INIT, moves);
            exists from: nat ::
              Stretch(Written(LogOf(Run(EMPTY, s.rooms[proxy].inputs).log, viewer)),
                      Bodies(Broadcasts(s.rooms[owner].History())), from)
  {
    hide IsRun, After, Run, Broadcasts, Bodies, Written, Stays, NoPing, Stretch;
    ViewerHearsOwner(moves, owner, proxy, before, viewer, during, after);
    RelayHearsRoom(moves, owner);
    var s := After(INIT, moves);
    var r := s.rooms[owner];
    var part := Written(LogOf(Run(EMPTY, s.rooms[proxy].inputs).log, viewer));
    var from: nat :| Stretch(part, Written(s.net.ends[owner].shown), from);
    ViewerBroadcasts(r.before, r.relay, r.during, r.after);
    var b, d, a := Broadcasts(r.before), Broadcasts(r.during), Broadcasts(r.after);
    assert Broadcasts(r.History()) == (b + d) + a;
    BodiesAppend(b + d, a);
    StartInside(r.before, d);
    StretchInside(part, Bodies(b + d), Bodies(a), StretchStart(r.before), from);
  }

  lemma StretchInside(part: seq<Body>, whole: seq<Body>, more: seq<Body>, start: nat, from: nat)
    requires start <= |whole| && Stretch(part, whole[start..], from)
    ensures Stretch(part, whole + more, start + from)
  {
    assert (whole + more)[start + from..start + from + |part|] == whole[start..][from..from + |part|];
  }

  // ---- Nothing is stuck ----

  lemma {:induction false} RunThen(s: System, a: seq<Move>, b: seq<Move>)
    requires IsRun(s, a) && IsRun(After(s, a), b)
    ensures IsRun(s, a + b) && After(s, a + b) == After(After(s, a), b)
    decreases |a|
  {
    hide Apply, Enabled;
    if a == [] {
      assert a + b == b;
    } else {
      assert (a + b)[0] == a[0] && (a + b)[1..] == a[1..] + b;
      RunThen(Apply(s, a[0]), a[1..], b);
    }
  }

  /** n messages passed on, one after the other. */
  function Passes(e: EndId, n: nat): seq<Move> {
    if n == 0 then [] else [Pass(e)] + Passes(e, n - 1)
  }

  /** A proxy that is connected can pass on all that is queued for it. */
  lemma {:induction false} CanPass(s: System, owner: EndId, proxy: EndId, n: nat)
    requires Linked(s, owner, proxy) && s.net.ends[proxy].open && n == |s.net.ends[proxy].queue|
    ensures IsRun(s, Passes(proxy, n))
    ensures var t := After(s, Passes(proxy, n));
            && Linked(t, owner, proxy) && t.net.ends[proxy].open && t.net.ends[proxy].queue == []
            && t.net.ends[owner] == s.net.ends[owner] && t.rooms[owner] == s.rooms[owner]
            && t.net.ends[proxy].since == s.net.ends[proxy].since
    decreases n
  {
    hide Run, Greeting, Deliveries, Broadcasts;
    if n > 0 {
      PassMoves(s, owner, proxy);
      assert Passes(proxy, n)[1..] == Passes(proxy, n - 1);
      CanPass(Apply(s, Pass(proxy)), owner, proxy, n - 1);
    }
  }

  lemma PassMoves(s: System, owner: EndId, proxy: EndId)
    requires Linked(s, owner, proxy) && s.net.ends[proxy].open && s.net.ends[proxy].queue != []
    ensures Enabled(s, Pass(proxy))
    ensures var t := Apply(s, Pass(proxy));
            && Linked(t, owner, proxy) && t.net.ends[proxy].open
            && t.net.ends[proxy].queue == s.net.ends[proxy].queue[1..]
            && t.net.ends[owner] == s.net.ends[owner] && t.rooms[owner] == s.rooms[owner]
            && t.net.ends[proxy].since == s.net.ends[proxy].since
  {
    hide Net.ReadName, Net.WriteName, Net.IsRun, Net.After;
    NetOne(s.net, Net.Take(proxy));
  }

  lemma NetOne(n: Net.Network, step: Net.Step)
    requires Net.Enabled(n, step)
    ensures Net.IsRun(n, [step]) && Net.After(n, [step]) == Net.Apply(n, step)
  {
    hide Net.Enabled, Net.Apply;
    assert [step][1..] == [];
    NetStays(Net.Apply(n, step));
  }

  lemma OneMove(s: System, m: Move)
    requires Enabled(s, m)
    ensures IsRun(s, [m]) && After(s, [m]) == Apply(s, m)
  {
    hide Enabled, Apply;
    assert [m][1..] == [];
  }

  /**
   Every proxy can catch up: from every reachable state a connected proxy can, without anything new happening elsewhere,
   broadcast in its room all that the owner's room has shown its relay connection since the proxy subscribed.
   */
  lemma ProxyCanCatchUp(moves: seq<Move>, owner: EndId, proxy: EndId) returns (more: seq<Move>)
    requires IsRun(INIT, moves) && Linked(After(INIT, moves), owner, proxy) && After(INIT, moves).net.ends[proxy].open
    ensures IsRun(INIT, moves + more)
    ensures var s, t := After(INIT, moves), After(INIT, moves + more);
            && Linked(t, owner, proxy) && t.net.ends[owner] == s.net.ends[owner] && t.rooms[owner] == s.rooms[owner]
            && t.net.ends[proxy].since == s.net.ends[proxy].since <= |Net.Messages(s.net.ends[owner].shown)|
            && Broadcasts(t.rooms[proxy].inputs) == Net.Messages(s.net.ends[owner].shown)[s.net.ends[proxy].since..]
  {
    hide IsRun, After, Broadcasts, OwnerTied, Net.Messages, Net.IsRun, Net.After;
    var s := After(INIT, moves);
    more := Passes(proxy, |s.net.ends[proxy].queue|);
    CanPass(s, owner, proxy, |s.net.ends[proxy].queue|);
    RunThen(INIT, moves, more);
    var t := After(INIT, moves + more);
    InvAlways(INIT, moves + more);
    assert Tied(t.net.ends[proxy], t.rooms[proxy]);
    NetRuns(INIT, moves + more);
    Net.ProxyFollowsOwner(AllSteps(INIT, moves + more), owner, proxy);
    assert t.net.ends[proxy].delivered + [] == t.net.ends[proxy].delivered;
  }

  /**
   Nobody is cut off: from every reachable state in which both are connected, whatever is broadcast next in the owner's
   room can reach the proxy's, as the last message broadcast there, data with its body.
   */
  lemma NextReachesViewers(moves: seq<Move>, owner: EndId, proxy: EndId, msg: Message) returns (more: seq<Move>)
    requires IsRun(INIT, moves) && Linked(After(INIT, moves), owner, proxy)
    requires After(INIT, moves).net.ends[owner].open && After(INIT, moves).net.ends[proxy].open
    ensures IsRun(INIT, moves + more) && Linked(After(INIT, moves + more), owner, proxy)
    ensures var s, t := After(INIT, moves), After(INIT, moves + more);
            var heard := Broadcasts(t.rooms[proxy].inputs);
            && t.rooms[owner].during == s.rooms[owner].during + [Broadcast(msg)]
            && heard != []
            && (msg.event == DataEvent ==> heard[|heard| - 1].event == DataEvent && heard[|heard| - 1].body == msg.body)
            && (msg.event != DataEvent && msg.event != PingEvent ==> heard[|heard| - 1] == msg)
  {
    hide IsRun, After, Broadcasts, OwnerTied, Net.Messages, Net.IsRun, Net.After, Run, Deliveries, Greeting;
    var s := After(INIT, moves);
    var next := Reach(owner, Broadcast(msg));
    InvAlways(INIT, moves);
    NetRuns(INIT, moves);
    Net.ProxyFollowsOwner(AllSteps(INIT, moves), owner, proxy);
    BroadcastMoves(s, owner, proxy, msg);
    RunThen(INIT, moves, [next]);
    var u := After(INIT, moves + [next]);
    var rest := ProxyCanCatchUp(moves + [next], owner, proxy);
    more := [next] + rest;
    assert moves + more == (moves + [next]) + rest;
    Net.RelayedAsBroadcast(msg);
    MessagesSnoc(s.net.ends[owner].shown, Deliver(msg));
  }

  lemma MessagesSnoc(ds: seq<Delivery>, d: Delivery)
    ensures Net.Messages(ds + [d]) == Net.Messages(ds) + [Net.AsMessage(d)]
  {
    assert (ds + [d])[..|ds|] == ds;
  }

  lemma BroadcastMoves(s: System, owner: EndId, proxy: EndId, msg: Message)
    requires Linked(s, owner, proxy) && s.net.ends[owner].open && s.net.ends[proxy].open
    ensures IsRun(s, [Reach(owner, Broadcast(msg))])
    ensures var t := After(s, [Reach(owner, Broadcast(msg))]);
            && Linked(t, owner, proxy) && t.net.ends[proxy].open
            && t.rooms[owner].during == s.rooms[owner].during + [Broadcast(msg)]
            && t.net.ends[owner].shown == s.net.ends[owner].shown + [Deliver(msg)]
            && t.net.ends[proxy].since == s.net.ends[proxy].since
  {
    hide IsRun, After, Net.ReadName, Net.WriteName, Net.IsRun, Net.After;
    NetOne(s.net, Net.Show(owner, Deliver(msg)));
    OneMove(s, Reach(owner, Broadcast(msg)));
  }

  lemma {:induction false} ShowsRun(n: Net.Network, e: EndId, ds: seq<Delivery>)
    requires e in n.ends && n.ends[e].open && n.ends[e].side == Net.OwnerSide
    ensures Net.IsRun(n, Shows(e, ds))
    decreases |ds|
  {
    hide Net.IsRun, Net.After, Net.Apply;
    if ds == [] {
      NetStays(n);
    } else {
      var init, d := ds[..|ds| - 1], ds[|ds| - 1];
      ShowsRun(n, e, init);
      ShowsEnds(n, e, init);
      NetOne(Net.After(n, Shows(e, init)), Net.Show(e, d));
      Net.RunThen(n, Shows(e, init), [Net.Show(e, d)]);
    }
  }

  /** A room that runs and is not shared yet can be, and followed, whatever else goes on. */
  lemma RoomsCanLink(s: System, owner: EndId, proxy: EndId, room: RoomId, before: seq<Input>, relay: ConnId)
    requires owner !in s.net.ends && proxy !in s.net.ends && owner != proxy
    requires forall f :: f in s.net.ends && s.net.ends[f].side == Net.OwnerSide ==> s.net.ends[f].room != room
    requires Run(EMPTY, before).running && Subscribe(relay) !in before
    ensures IsRun(s, [Own(owner, room, before, relay), Follow(proxy, room)])
    ensures var t := After(s, [Own(owner, room, before, relay), Follow(proxy, room)]);
            && Linked(t, owner, proxy) && t.net.ends[owner].open && t.net.ends[proxy].open
            && t.rooms[owner] == Owning(before, relay, [], [])
  {
    hide IsRun, After, Run, Greeting, Net.IsRun, Net.After, Net.Apply, Net.Enabled;
    var own, follow := Own(owner, room, before, relay), Follow(proxy, room);
    OwnMoves(s, own);
    OneMove(s, own);
    var u := Apply(s, own);
    FollowMoves(u, follow);
    OneMove(u, follow);
    RunThen(s, [own], [follow]);
    assert [own] + [follow] == [own, follow];
  }

  lemma OwnMoves(s: System, m: Move)
    requires m.Own? && m.e !in s.net.ends && Run(EMPTY, m.before).running && Subscribe(m.relay) !in m.before
    requires forall f :: f in s.net.ends && s.net.ends[f].side == Net.OwnerSide ==> s.net.ends[f].room != m.room
    ensures Enabled(s, m)
    ensures var t := Apply(s, m);
            && t.net.ends.Keys == s.net.ends.Keys + {m.e}
            && t.net.ends[m.e].open && t.net.ends[m.e].side == Net.OwnerSide && t.net.ends[m.e].room == m.room
            && t.rooms == s.rooms[m.e := Owning(m.before, m.relay, [], [])]
  {
    hide Run, Greeting, Net.IsRun, Net.After, Net.ReadName, Net.WriteName;
    var join := Net.Join(m.e, Net.OwnerSide, m.room);
    var ds := Greeting(Run(EMPTY, m.before));
    NetOne(s.net, join);
    var u := Net.Apply(s.net, join);
    ShowsRun(u, m.e, ds);
    ShowsEnds(u, m.e, ds);
    Net.RunThen(s.net, [join], Shows(m.e, ds));
  }

  lemma FollowMoves(s: System, m: Move)
    requires m.Follow? && m.e !in s.net.ends
    ensures Enabled(s, m)
    ensures var t := Apply(s, m);
            && t.net.ends.Keys == s.net.ends.Keys + {m.e} && t.rooms == s.rooms[m.e := Proxying([])]
            && t.net.ends[m.e].open && t.net.ends[m.e].side == Net.ProxySide && t.net.ends[m.e].room == m.room
            && forall f :: f in s.net.ends ==> t.net.ends[f] == s.net.ends[f]
  {
    hide Net.IsRun, Net.After, Net.ReadName, Net.WriteName;
    NetOne(s.net, Net.Join(m.e, Net.ProxySide, m.room));
  }

  /** n messages heard, one after the other. */
  function Hears(e: EndId, n: nat): seq<Move> {
    if n == 0 then [] else [Hear(e)] + Hears(e, n - 1)
  }

  lemma {:induction false} CanHear(s: System, owner: EndId, n: nat)
    requires owner in s.net.ends && owner in s.rooms && s.rooms[owner].Owning?
    requires s.net.ends[owner].open && n == |s.net.ends[owner].queue|
    ensures IsRun(s, Hears(owner, n))
    ensures var t := After(s, Hears(owner, n));
            && owner in t.net.ends
            && t.net.ends[owner].delivered == s.net.ends[owner].delivered + s.net.ends[owner].queue
    decreases n
  {
    hide Net.IsRun, Net.After, Net.ReadName, Net.WriteName, Run;
    var end := s.net.ends[owner];
    if n > 0 {
      NetOne(s.net, Net.Take(owner));
      assert Hears(owner, n)[1..] == Hears(owner, n - 1);
      CanHear(Apply(s, Hear(owner)), owner, n - 1);
      assert (end.delivered + [end.queue[0]]) + end.queue[1..] == end.delivered + end.queue;
    } else {
      assert end.delivered + [] == end.delivered;
    }
  }

  /** What is typed at a proxy can be heard by the owner, behind all that is queued there. */
  lemma TypedCanBeHeard(s: System, owner: EndId, proxy: EndId, msg: Message) returns (more: seq<Move>)
    requires Linked(s, owner, proxy) && s.net.ends[owner].open && s.net.ends[proxy].open
    ensures IsRun(s, [Type(proxy, msg)] + more)
    ensures var t := After(s, [Type(proxy, msg)] + more);
            var end := s.net.ends[owner];
            && owner in t.net.ends
            && t.net.ends[owner].delivered == end.delivered + end.queue + [Net.Sent(proxy, msg)]
  {
    hide IsRun, After, Net.IsRun, Net.After, Net.ReadName, Net.WriteName, Run;
    NetOne(s.net, Net.Type(proxy, msg));
    OneMove(s, Type(proxy, msg));
    var u := Apply(s, Type(proxy, msg));
    var end := s.net.ends[owner];
    assert u.net.ends[owner].queue == end.queue + [Net.Sent(proxy, msg)];
    more := Hears(owner, |end.queue| + 1);
    CanHear(u, owner, |end.queue| + 1);
    RunThen(s, [Type(proxy, msg)], more);
    assert end.delivered + (end.queue + [Net.Sent(proxy, msg)]) == end.delivered + end.queue + [Net.Sent(proxy, msg)];
  }
}
