/**
 The relay between nodes over publish/subscribe, taken to be reliable and in order per channel: the owner's
 side of a room (proxyUserCon) and any number of proxy sides (proxyRoom), for any number of rooms at once.
 */
module CrossNode {
  import opened Options
  import opened Actor = Room

  type RoomId = string
  type EndId = nat

  const PREFIX := "JMS:KOKO:SESSIONS:"

  /** createSessionChannel(roomId + ".read") and (roomId + ".write") */
  function ReadName(room: RoomId): string {
    PREFIX + (room + ".read")
  }

  function WriteName(room: RoomId): string {
    PREFIX + (room + ".write")
  }

  datatype Side = OwnerSide | ProxySide

  /** A message on a channel, and who published it. */
  datatype Sent = Sent(from: EndId, msg: Message)

  /**
   One end of a relay. `since` counts what its read channel had carried when it subscribed; `shown` is what
   the owner's room handed its connection; `delivered` is what it took from its queue: broadcast in the
   proxy's room, or received by the owner's.
   */
  datatype End = End(side: Side, room: RoomId, open: bool, queue: seq<Sent>, since: nat, delivered: seq<Sent>, shown: seq<Delivery>)
  {
    /** The two sides read where the other writes. */
    function Inbound(): string { if side == OwnerSide then WriteName(room) else ReadName(room) }
    function Outbound(): string { if side == OwnerSide then ReadName(room) else WriteName(room) }
  }

  datatype Network = Network(ends: map<EndId, End>, published: map<string, seq<Sent>>)

  const INIT := Network(map[], map[])

  datatype Step =
    | Join(e: EndId, side: Side, room: RoomId)
    | Show(e: EndId, d: Delivery)     // the owner's room hands its connection something
    | Type(e: EndId, msg: Message)    // a viewer's input reaches the proxy's userInputCh
    | Take(e: EndId)                  // a message leaves the subscription's queue
    | Close(e: EndId)

  function On(published: map<string, seq<Sent>>, name: string): seq<Sent> {
    if name in published then published[name] else []
  }

  /** How a redisChannel passes a delivery on: Write(nil) for a ping becomes an empty data message. */
  function AsMessage(d: Delivery): Message {
    match d
    case Wrote(body) => Message(DataEvent, body, Meta("", "", false))
    case Pinged => Message(DataEvent, "", Meta("", "", false))
    case Told(msg) => msg
    case ToldUsers(_) => Message(OtherEvent("Share_USERS"), "", Meta("", "", false))
  }

  /** A session lives on one node, which creates one relay connection for it. */
  predicate Enabled(s: Network, step: Step) {
    match step
    case Join(e, side, room) =>
      e !in s.ends && (side == OwnerSide ==> forall f :: f in s.ends && s.ends[f].side == OwnerSide ==> s.ends[f].room != room)
    case Show(e, _) => e in s.ends && s.ends[e].open && s.ends[e].side == OwnerSide
    case Type(e, _) => e in s.ends && s.ends[e].open && s.ends[e].side == ProxySide
    case Take(e) => e in s.ends && s.ends[e].open && s.ends[e].queue != []
    case Close(e) => e in s.ends && s.ends[e].open
  }

  /** PUBLISH: the channel's history grows and every subscription to it gets the message. */
  function Publish(s: Network, name: string, m: Sent): Network {
    Network(map e | e in s.ends :: if s.ends[e].open && s.ends[e].Inbound() == name
                                 then s.ends[e].(queue := s.ends[e].queue + [m]) else s.ends[e],
          s.published[name := On(s.published, name) + [m]])
  }

  function Apply(s: Network, step: Step): Network
    requires Enabled(s, step)
  {
    match step
    case Join(e, side, room) =>
      var end := End(side, room, true, [], 0, [], []);
      s.(ends := s.ends[e := end.(since := |On(s.published, end.Inbound())|)])
    case Show(e, d) =>
      var end := s.ends[e];
      Publish(s.(ends := s.ends[e := end.(shown := end.shown + [d])]), end.Outbound(), Sent(e, AsMessage(d)))
    case Type(e, msg) => Publish(s, s.ends[e].Outbound(), Sent(e, msg))
    case Take(e) =>
      var end := s.ends[e];
      s.(ends := s.ends[e := end.(queue := end.queue[1..], delivered := end.delivered + [end.queue[0]])])
    case Close(e) => s.(ends := s.ends[e := s.ends[e].(open := false, queue := [])])
  }

  predicate IsRun(s: Network, steps: seq<Step>)
    decreases |steps|
  {
    steps == [] || (Enabled(s, steps[0]) && IsRun(Apply(s, steps[0]), steps[1..]))
  }

  function After(s: Network, steps: seq<Step>): Network
    requires IsRun(s, steps)
    decreases |steps|
  {
    if steps == [] then s else After(Apply(s, steps[0]), steps[1..])
  }

  // ---- Channel names ----

  /** The names tell rooms and directions apart, whatever the room ids look like. */
  lemma NamesAreInjective(a: RoomId, b: RoomId)
    ensures ReadName(a) == ReadName(b) ==> a == b
    ensures WriteName(a) == WriteName(b) ==> a == b
    ensures ReadName(a) != WriteName(b)
  {
    SuffixInjective(a, b, ".read");
    SuffixInjective(a, b, ".write");
    var r, w := ReadName(a), WriteName(b);
    assert r[|r| - 2] == 'a';
    assert w[|w| - 2] == 't';
  }

  lemma SuffixInjective(a: string, b: string, suffix: string)
    ensures PREFIX + (a + suffix) == PREFIX + (b + suffix) ==> a == b
  {
    var x, y := PREFIX + (a + suffix), PREFIX + (b + suffix);
    if x == y {
      assert a == x[|PREFIX|..|PREFIX| + |a|];
      assert b == y[|PREFIX|..|PREFIX| + |b|];
    }
  }

  // ---- The invariant ----

  /** Exactly the traffic since it subscribed has been delivered to an end or is queued for it. */
  predicate Flow(s: Network, end: End) {
    var all := On(s.published, end.Inbound());
    && end.since <= |all|
    && end.delivered <= all[end.since..]
    && (end.open ==> end.delivered + end.queue == all[end.since..])
  }

  /** Who writes on a channel reads another: the other side of the same room. */
  ghost predicate WritersOk(s: Network) {
    forall name :: name in s.published ==>
      forall i :: 0 <= i < |s.published[name]| ==>
        s.published[name][i].from in s.ends && s.ends[s.published[name][i].from].Outbound() == name
  }

  function Messages(ds: seq<Delivery>): seq<Message> {
    if ds == [] then [] else Messages(ds[..|ds| - 1]) + [AsMessage(ds[|ds| - 1])]
  }

  function Contents(sent: seq<Sent>): (ms: seq<Message>)
    ensures |ms| == |sent|
    ensures forall i :: 0 <= i < |ms| ==> ms[i] == sent[i].msg
  {
    seq(|sent|, i requires 0 <= i < |sent| => sent[i].msg)
  }

  predicate SameOwner(s: Network, e: EndId, f: EndId) {
    && e in s.ends && f in s.ends
    && s.ends[e].side == s.ends[f].side == OwnerSide
    && s.ends[e].room == s.ends[f].room
  }

  /** What a room's read channel carries is what the owner's room showed its relay connection. */
  ghost predicate OwnersOk(s: Network) {
    && (forall e :: e in s.ends && s.ends[e].side == OwnerSide ==>
          Contents(On(s.published, ReadName(s.ends[e].room))) == Messages(s.ends[e].shown))
    && (forall e, f :: SameOwner(s, e, f) ==> e == f)
  }

  ghost predicate FlowsOk(s: Network) {
    forall e :: e in s.ends ==> Flow(s, s.ends[e])
  }

  ghost predicate Inv(s: Network) {
    FlowsOk(s) && WritersOk(s) && OwnersOk(s)
  }

  /** Traffic that grows by `more` keeps an end's flow, whether it still listens or not. */
  lemma GrowFlow(s: Network, t: Network, end: End, more: seq<Sent>)
    requires Flow(s, end)
    requires On(t.published, end.Inbound()) == On(s.published, end.Inbound()) + more
    ensures Flow(t, if end.open then end.(queue := end.queue + more) else end)
  {
    hide ReadName, WriteName;
    var all := On(s.published, end.Inbound());
    var rest := all[end.since..];
    assert (all + more)[end.since..] == rest + more;
    assert end.delivered == (rest + more)[..|end.delivered|];
    if end.open {
      assert end.delivered + (end.queue + more) == rest + more;
    }
  }

  lemma PublishFlows(s: Network, name: string, m: Sent)
    requires FlowsOk(s)
    ensures FlowsOk(Publish(s, name, m))
  {
    hide ReadName, WriteName, Flow;
    var t := Publish(s, name, m);
    forall e | e in t.ends
      ensures Flow(t, t.ends[e])
    {
      var end := s.ends[e];
      var more := if end.Inbound() == name then [m] else [];
      assert On(s.published, end.Inbound()) + [] == On(s.published, end.Inbound()) && end.queue + [] == end.queue;
      GrowFlow(s, t, end, more);
    }
  }

  lemma TakeFlow(s: Network, end: End)
    requires Flow(s, end) && end.open && end.queue != []
    ensures Flow(s, end.(queue := end.queue[1..], delivered := end.delivered + [end.queue[0]]))
  {
    hide ReadName, WriteName;
    var rest := On(s.published, end.Inbound())[end.since..];
    assert end.delivered + [end.queue[0]] + end.queue[1..] == rest;
    assert end.delivered + [end.queue[0]] == rest[..|end.delivered| + 1];
  }

  lemma JoinFlow(s: Network, side: Side, room: RoomId)
    ensures var end := End(side, room, true, [], 0, [], []);
            Flow(s, end.(since := |On(s.published, end.Inbound())|))
  {
    hide ReadName, WriteName;
  }

  /** An end replaced by one that flows; the published history is as before. */
  lemma ReplaceFlow(s: Network, e: EndId, end: End)
    requires FlowsOk(s) && Flow(s, end)
    ensures FlowsOk(s.(ends := s.ends[e := end]))
  {
    hide ReadName, WriteName;
    var t := s.(ends := s.ends[e := end]);
    forall f | f in t.ends
      ensures Flow(t, t.ends[f])
    {
      if f != e {
        assert Flow(s, s.ends[f]);
      }
    }
  }

  lemma FlowsStep(s: Network, step: Step)
    requires FlowsOk(s) && Enabled(s, step)
    ensures FlowsOk(Apply(s, step))
  {
    hide Publish, ReadName, WriteName, Flow;
    match step
    case Join(e, side, room) =>
      var end := End(side, room, true, [], 0, [], []);
      JoinFlow(s, side, room);
      ReplaceFlow(s, e, end.(since := |On(s.published, end.Inbound())|));
    case Show(e, d) =>
      var end := s.ends[e].(shown := s.ends[e].shown + [d]);
      FlowIgnores(s, s.ends[e], end);
      ReplaceFlow(s, e, end);
      PublishFlows(s.(ends := s.ends[e := end]), s.ends[e].Outbound(), Sent(e, AsMessage(d)));
    case Type(e, msg) => PublishFlows(s, s.ends[e].Outbound(), Sent(e, msg));
    case Take(e) =>
      var end := s.ends[e];
      TakeFlow(s, end);
      ReplaceFlow(s, e, end.(queue := end.queue[1..], delivered := end.delivered + [end.queue[0]]));
    case Close(e) =>
      var end := s.ends[e].(open := false, queue := []);
      FlowIgnores(s, s.ends[e], end);
      ReplaceFlow(s, e, end);
  }

  lemma FlowIgnores(s: Network, end: End, other: End)
    requires Flow(s, end)
    requires other == end.(shown := other.shown) || other == end.(open := false, queue := [])
    ensures Flow(s, other)
  {
    hide ReadName, WriteName;
  }

  lemma PublishWriters(s: Network, name: string, m: Sent)
    requires WritersOk(s) && m.from in s.ends && s.ends[m.from].Outbound() == name
    ensures WritersOk(Publish(s, name, m))
  {
    hide ReadName, WriteName;
    var t := Publish(s, name, m);
    forall n, i | n in t.published && 0 <= i < |t.published[n]|
      ensures t.published[n][i].from in t.ends && t.ends[t.published[n][i].from].Outbound() == n
    {
      if n in s.published && i < |s.published[n]| {
        assert t.published[n][i] == s.published[n][i];
      }
    }
  }

  lemma WritersStep(s: Network, step: Step)
    requires WritersOk(s) && Enabled(s, step)
    ensures WritersOk(Apply(s, step))
  {
    hide Publish, ReadName, WriteName;
    match step
    case Show(e, d) =>
      var u := s.(ends := s.ends[e := s.ends[e].(shown := s.ends[e].shown + [d])]);
      PublishWriters(u, s.ends[e].Outbound(), Sent(e, AsMessage(d)));
    case Type(e, msg) => PublishWriters(s, s.ends[e].Outbound(), Sent(e, msg));
    case _ =>
  }

  lemma MessagesSnoc(ds: seq<Delivery>, d: Delivery)
    ensures Messages(ds + [d]) == Messages(ds) + [AsMessage(d)]
  {
    assert (ds + [d])[..|ds|] == ds;
  }

  lemma OwnersStep(s: Network, step: Step)
    requires WritersOk(s) && OwnersOk(s) && Enabled(s, step)
    ensures OwnersOk(Apply(s, step))
  {
    hide ReadName, WriteName, Messages;
    var t := Apply(s, step);
    forall e | e in t.ends && t.ends[e].side == OwnerSide
      ensures Contents(On(t.published, ReadName(t.ends[e].room))) == Messages(t.ends[e].shown)
    {
      if e in s.ends {
        assert Contents(On(s.published, ReadName(s.ends[e].room))) == Messages(s.ends[e].shown);
        OwnersPublish(s, step, e);
      } else {
        NothingPublished(s, t.ends[e].room);
        assert Messages([]) == [] by { NoMessages(); }
      }
    }
    forall e, f | SameOwner(t, e, f)
      ensures e == f
    {
      assert e in s.ends && f in s.ends ==> SameOwner(s, e, f);
    }
  }

  lemma NoMessages()
    ensures Messages([]) == []
  {
  }

  /** Before the owner's side exists nobody can have written on a room's read channel. */
  lemma NothingPublished(s: Network, room: RoomId)
    requires WritersOk(s)
    requires forall f :: f in s.ends && s.ends[f].side == OwnerSide ==> s.ends[f].room != room
    ensures On(s.published, ReadName(room)) == []
  {
    hide ReadName, WriteName;
    var all := On(s.published, ReadName(room));
    if all != [] {
      var f := all[0].from;
      assert f in s.ends && s.ends[f].Outbound() == ReadName(room);
      NamesAreInjective(room, s.ends[f].room);
      NamesAreInjective(s.ends[f].room, room);
    }
  }

  /** A step adds to a room's read channel exactly what it adds to its owner's record. */
  lemma OwnersPublish(s: Network, step: Step, e: EndId)
    requires OwnersOk(s) && Enabled(s, step) && e in s.ends && s.ends[e].side == OwnerSide
    ensures var t := Apply(s, step);
            var name := ReadName(s.ends[e].room);
            if step.Show? && step.e == e
            then && On(t.published, name) == On(s.published, name) + [Sent(e, AsMessage(step.d))]
                 && t.ends[e].shown == s.ends[e].shown + [step.d]
                 && Messages(t.ends[e].shown) == Messages(s.ends[e].shown) + [AsMessage(step.d)]
            else On(t.published, name) == On(s.published, name) && t.ends[e].shown == s.ends[e].shown
  {
    hide ReadName, WriteName, Messages;
    var room := s.ends[e].room;
    match step
    case Show(f, d) =>
      MessagesSnoc(s.ends[f].shown, d);
      NamesAreInjective(room, s.ends[f].room);
      if f != e {
        assert !SameOwner(s, e, f);
      }
    case Type(f, _) => NamesAreInjective(room, s.ends[f].room);
    case _ =>
  }

  lemma {:induction false} InvAlways(s: Network, steps: seq<Step>)
    requires Inv(s) && IsRun(s, steps)
    ensures Inv(After(s, steps))
    decreases |steps|
  {
    hide FlowsOk, WritersOk, OwnersOk, Enabled, Apply;
    if steps != [] {
      FlowsStep(s, steps[0]);
      WritersStep(s, steps[0]);
      OwnersStep(s, steps[0]);
      InvAlways(Apply(s, steps[0]), steps[1..]);
    }
  }

  lemma InvInit()
    ensures Inv(INIT)
  {
  }

  // ---- The main results ----

  /**
   In every run, whatever an end has been delivered or has queued was published by the other side of its own
   room: viewer input reaches the owner only, the owner's output its room's proxies only, and no end, and no
   node on the same side, ever hears itself.
   */
  lemma OnlyFromTheOtherSide(steps: seq<Step>, e: EndId, i: nat)
    requires IsRun(INIT, steps)
    requires var s := After(INIT, steps);
             e in s.ends && i < |s.ends[e].delivered|
    ensures var s := After(INIT, steps);
            var f := s.ends[e].delivered[i].from;
            && f in s.ends && f != e
            && s.ends[f].room == s.ends[e].room
            && s.ends[f].side != s.ends[e].side
  {
    hide IsRun, After, ReadName, WriteName;
    InvInit();
    InvAlways(INIT, steps);
    var s := After(INIT, steps);
    var end := s.ends[e];
    assert Flow(s, end);
    var all := On(s.published, end.Inbound());
    assert all[end.since..][i] == all[end.since + i];
    var f := end.delivered[i].from;
    assert s.ends[f].Outbound() == end.Inbound();
    NamesAreInjective(end.room, s.ends[f].room);
    NamesAreInjective(s.ends[f].room, end.room);
  }

  /**
   From its subscription on, a proxy broadcasts in its room exactly what the owner's room shows its relay
   connection: in order, each once; the rest is in the proxy's queue.
   */
  lemma ProxyFollowsOwner(steps: seq<Step>, owner: EndId, proxy: EndId)
    requires IsRun(INIT, steps)
    requires var s := After(INIT, steps);
             && owner in s.ends && proxy in s.ends
             && s.ends[owner].side == OwnerSide && s.ends[proxy].side == ProxySide
             && s.ends[owner].room == s.ends[proxy].room
    ensures var s := After(INIT, steps);
            var all, p := Messages(s.ends[owner].shown), s.ends[proxy];
            && p.since <= |all|
            && Contents(p.delivered) <= all[p.since..]
            && (p.open ==> Contents(p.delivered + p.queue) == all[p.since..])
  {
    hide IsRun, After, ReadName, WriteName, Messages;
    InvInit();
    InvAlways(INIT, steps);
    var s := After(INIT, steps);
    var p := s.ends[proxy];
    assert Flow(s, p);
    var sent := On(s.published, p.Inbound());
    assert Contents(sent) == Messages(s.ends[owner].shown);
    assert Contents(sent[p.since..]) == Contents(sent)[p.since..];
  }

  // ---- Nothing is stuck, nothing is changed on the way ----

  /** n messages taken, one after the other. */
  function Takes(e: EndId, n: nat): seq<Step> {
    if n == 0 then [] else [Take(e)] + Takes(e, n - 1)
  }

  /** An end that listens can take all that is queued for it, whatever the others do later. */
  lemma {:induction false} QueueCanEmpty(s: Network, e: EndId, n: nat)
    requires e in s.ends && s.ends[e].open && n == |s.ends[e].queue|
    ensures IsRun(s, Takes(e, n))
    ensures var t := After(s, Takes(e, n));
            && e in t.ends && t.ends[e].queue == [] && t.ends[e].delivered == s.ends[e].delivered + s.ends[e].queue
            && t.published == s.published
    decreases n
  {
    hide ReadName, WriteName;
    if n > 0 {
      var t := Apply(s, Take(e));
      assert Takes(e, n)[1..] == Takes(e, n - 1);
      QueueCanEmpty(t, e, n - 1);
      var end := s.ends[e];
      assert (end.delivered + [end.queue[0]]) + end.queue[1..] == end.delivered + end.queue;
    } else {
      assert s.ends[e].delivered + [] == s.ends[e].delivered;
    }
  }

  /**
   What the owner's room hands its relay connection of a message reaches the other rooms as a message of the same kind
   with the same body; a ping as an empty data message. All but data keep their sender too.
   */
  lemma RelayedAsBroadcast(m: Message)
    ensures m.event == PingEvent ==> AsMessage(Deliver(m)).event == DataEvent && AsMessage(Deliver(m)).body == ""
    ensures m.event == DataEvent ==> AsMessage(Deliver(m)).event == DataEvent && AsMessage(Deliver(m)).body == m.body
    ensures m.event != PingEvent && m.event != DataEvent ==> AsMessage(Deliver(m)) == m
  {
  }

  // ---- What viewers type ----

  /** The messages of one end among those on a channel. */
  function Of(e: EndId, sent: seq<Sent>): seq<Message> {
    if sent == [] then []
    else (if sent[0].from == e then [sent[0].msg] else []) + Of(e, sent[1..])
  }

  lemma {:induction false} OfAppend(e: EndId, a: seq<Sent>, b: seq<Sent>)
    ensures Of(e, a + b) == Of(e, a) + Of(e, b)
  {
    if a == [] {
      assert a + b == b;
    } else {
      assert (a + b)[0] == a[0] && (a + b)[1..] == a[1..] + b;
      OfAppend(e, a[1..], b);
    }
  }

  lemma {:induction false} OfNobody(e: EndId, sent: seq<Sent>)
    requires forall i :: 0 <= i < |sent| ==> sent[i].from != e
    ensures Of(e, sent) == []
  {
    if sent != [] {
      OfNobody(e, sent[1..]);
    }
  }

  /** What the viewers at one end typed during a run. */
  function Typed(e: EndId, steps: seq<Step>): seq<Message> {
    if steps == [] then []
    else (if steps[0].Type? && steps[0].e == e then [steps[0].msg] else []) + Typed(e, steps[1..])
  }

  /** An end keeps its side, its room and the moment it subscribed, and channels only grow. */
  ghost predicate Grows(s: Network, t: Network) {
    && (forall e :: e in s.ends ==>
          e in t.ends && t.ends[e].side == s.ends[e].side && t.ends[e].room == s.ends[e].room && t.ends[e].since == s.ends[e].since)
    && (forall name :: On(s.published, name) <= On(t.published, name))
  }

  lemma GrowsStep(s: Network, step: Step)
    requires Enabled(s, step)
    ensures Grows(s, Apply(s, step))
  {
    hide ReadName, WriteName;
  }

  lemma {:induction false} GrowsRun(s: Network, steps: seq<Step>)
    requires IsRun(s, steps)
    ensures Grows(s, After(s, steps))
    decreases |steps|
  {
    hide Enabled, Apply;
    if steps != [] {
      GrowsStep(s, steps[0]);
      GrowsRun(Apply(s, steps[0]), steps[1..]);
    }
  }

  /** A step adds to the write channel of a proxy's room, of that proxy's, exactly what is typed there. */
  lemma TypedStep(s: Network, step: Step, e: EndId, room: RoomId)
    requires Enabled(s, step)
    requires e in s.ends ==> s.ends[e].side == ProxySide && s.ends[e].room == room
    ensures Of(e, On(Apply(s, step).published, WriteName(room))) ==
            Of(e, On(s.published, WriteName(room))) + if step.Type? && step.e == e then [step.msg] else []
  {
    hide ReadName, WriteName, Of;
    var name := WriteName(room);
    OfNobody(e, []);
    match step
    case Show(f, d) =>
      OfOne(e, On(s.published, name), Sent(f, AsMessage(d)));
    case Type(f, msg) =>
      OfOne(e, On(s.published, name), Sent(f, msg));
    case _ =>
  }

  lemma OfOne(e: EndId, sent: seq<Sent>, m: Sent)
    ensures Of(e, sent + [m]) == Of(e, sent) + if m.from == e then [m.msg] else []
    ensures Of(e, sent) + [] == Of(e, sent)
  {
    OfAppend(e, sent, [m]);
    assert [m][1..] == [];
  }

  lemma {:induction false} TypedRun(s: Network, steps: seq<Step>, e: EndId, room: RoomId)
    requires IsRun(s, steps)
    requires var t := After(s, steps); e in t.ends && t.ends[e].side == ProxySide && t.ends[e].room == room
    ensures Of(e, On(After(s, steps).published, WriteName(room))) == Of(e, On(s.published, WriteName(room))) + Typed(e, steps)
    decreases |steps|
  {
    hide Enabled, Apply, WriteName, Of;
    GrowsRun(s, steps);
    if steps != [] {
      TypedStep(s, steps[0], e, room);
      TypedRun(Apply(s, steps[0]), steps[1..], e, room);
    }
  }

  lemma {:induction false} RunThen(s: Network, a: seq<Step>, b: seq<Step>)
    ensures IsRun(s, a + b) <==> IsRun(s, a) && IsRun(After(s, a), b)
    ensures IsRun(s, a + b) ==> After(s, a + b) == After(After(s, a), b)
    decreases |a|
  {
    hide Enabled, Apply;
    if a == [] {
      assert a + b == b;
    } else {
      assert (a + b)[0] == a[0] && (a + b)[1..] == a[1..] + b;
      if Enabled(s, a[0]) {
        RunThen(Apply(s, a[0]), a[1..], b);
      }
    }
  }

  lemma OfPrefix(e: EndId, a: seq<Sent>, b: seq<Sent>)
    requires a <= b
    ensures Of(e, a) <= Of(e, b)
  {
    OfAppend(e, a, b[|a|..]);
    assert b == a + b[|a|..];
  }

  /** What was on the channel when the owner subscribed is not from a proxy that came later. */
  lemma SinceTheOwner(t: Network, s: Network, owner: EndId, proxy: EndId)
    requires Inv(t) && Inv(s) && Grows(t, s)
    requires owner in t.ends && proxy !in t.ends && t.ends[owner].side == OwnerSide
    ensures var o := s.ends[owner];
            var all := On(s.published, WriteName(o.room));
            o.since <= |all| && Of(proxy, all[o.since..]) == Of(proxy, all)
  {
    hide ReadName, WriteName, Of, OwnersOk;
    var o := s.ends[owner];
    var name := WriteName(o.room);
    var all, early := On(s.published, name), On(t.published, name);
    assert Flow(t, t.ends[owner]) && Flow(s, o);
    OfNobody(proxy, early[..o.since]);
    assert all[..o.since] == early[..o.since] && all == all[..o.since] + all[o.since..];
    OfAppend(proxy, all[..o.since], all[o.since..]);
  }

  /**
   The other direction: the owner takes what is typed at a proxy that joined after it, in order and each once; what
   it has not taken is queued for it as long as it listens.
   */
  lemma OwnerFollowsProxy(first: seq<Step>, rest: seq<Step>, owner: EndId, proxy: EndId)
    requires IsRun(INIT, first + rest)
    requires IsRun(INIT, first) && owner in After(INIT, first).ends && proxy !in After(INIT, first).ends
    requires var s := After(INIT, first + rest);
             && owner in s.ends && proxy in s.ends
             && s.ends[owner].side == OwnerSide && s.ends[proxy].side == ProxySide
             && s.ends[owner].room == s.ends[proxy].room
    ensures var o := After(INIT, first + rest).ends[owner];
            var typed := Typed(proxy, first + rest);
            && Of(proxy, o.delivered) <= typed
            && (o.open ==> Of(proxy, o.delivered + o.queue) == typed)
  {
    hide IsRun, After, ReadName, WriteName, Typed, Of, Inv, Grows;
    var t, s := After(INIT, first), After(INIT, first + rest);
    InvInit();
    InvAlways(INIT, first);
    InvAlways(INIT, first + rest);
    RunThen(INIT, first, rest);
    GrowsRun(t, rest);
    var o := s.ends[owner];
    OwnerStays(t, s, owner);
    TypedRun(INIT, first + rest, proxy, o.room);
    SinceTheOwner(t, s, owner, proxy);
    OfNobody(proxy, []);
    FlowOf(s, owner);
    var heard := On(s.published, WriteName(o.room))[o.since..];
    assert Of(proxy, heard) == Typed(proxy, first + rest);
    OfPrefix(proxy, o.delivered, heard);
  }

  lemma OwnerStays(t: Network, s: Network, e: EndId)
    requires Grows(t, s) && e in t.ends
    ensures e in s.ends && s.ends[e].side == t.ends[e].side
  {
  }

  lemma FlowOf(s: Network, e: EndId)
    requires Inv(s) && e in s.ends
    ensures Flow(s, s.ends[e])
  {
  }
}
