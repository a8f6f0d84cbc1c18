/** The room actor: who is subscribed, what is replayed to newcomers and what is broadcast to all. */
module Room {
  import opened Options

  type ConnId = string
  type Body = string

  const RECENT := 5
  const ZMODEM_START: Body := "ZMODEM_START"

  datatype Meta = Meta(user: string, created: string, writable: bool)

  datatype Event = DataEvent | PingEvent | ShareJoin | ShareLeave | ActionEvent | OtherEvent(name: string)

  datatype Message = Message(event: Event, body: Body, meta: Meta)

  /** What handlerMessage does to a connection: write a body, write nothing, or pass an event on. */
  datatype Delivery = Wrote(body: Body) | Pinged | Told(msg: Message) | ToldUsers(online: map<string, Meta>)

  function Deliver(msg: Message): Delivery {
    match msg.event
    case DataEvent => Wrote(msg.body)
    case PingEvent => Pinged
    case _ => Told(msg)
  }

  function UserKey(m: Meta): string {
    m.user + m.created
  }

  // ---- The room on values ----

  datatype State = State(
    running: bool,
    conns: set<ConnId>,
    online: map<string, Meta>,
    zmodem: bool,
    recent: seq<Message>,
    log: map<ConnId, seq<Delivery>>)

  datatype Input = Subscribe(id: ConnId) | Unsubscribe(id: ConnId) | Broadcast(msg: Message) | Tick

  const EMPTY := State(true, {}, map[], false, [], map[])

  function LogOf(log: map<ConnId, seq<Delivery>>, id: ConnId): seq<Delivery> {
    if id in log then log[id] else []
  }

  function Push(recent: seq<Message>, msg: Message): (r: seq<Message>)
    ensures |recent| <= RECENT ==> |r| <= RECENT
  {
    (if |recent| == RECENT then recent[1..] else recent) + [msg]
  }

  function Writes(msgs: seq<Message>): seq<Delivery> {
    if msgs == [] then [] else [Wrote(msgs[0].body)] + Writes(msgs[1..])
  }

  /** What a new connection is sent first. */
  function Greeting(s: State): seq<Delivery> {
    ZmodemNotice(s.zmodem) + Writes(s.recent) + [ToldUsers(s.online)]
  }

  function ZmodemNotice(zmodem: bool): seq<Delivery> {
    if zmodem then [Told(Message(ActionEvent, ZMODEM_START, Meta("", "", false)))] else []
  }

  lemma GreetingParts(s: State, start: seq<Delivery>)
    ensures ((start + ZmodemNotice(s.zmodem)) + Writes(s.recent)) + [ToldUsers(s.online)] == start + Greeting(s)
  {
  }

  function NewOnline(online: map<string, Meta>, msg: Message): map<string, Meta> {
    match msg.event
    case ShareJoin => online[UserKey(msg.meta) := msg.meta]
    case ShareLeave => online - {UserKey(msg.meta)}
    case _ => online
  }

  function NewZmodem(zmodem: bool, msg: Message): bool {
    if msg.event == ActionEvent then msg.body == ZMODEM_START else zmodem
  }

  /** Every subscribed connection is sent the message once. */
  function Spread(log: map<ConnId, seq<Delivery>>, conns: set<ConnId>, msg: Message): map<ConnId, seq<Delivery>> {
    map id | id in log.Keys + conns :: if id in conns then LogOf(log, id) + [Deliver(msg)] else LogOf(log, id)
  }

  function Step(s: State, i: Input): State {
    if !s.running then s
    else
      match i
      case Subscribe(id) => s.(conns := s.conns + {id}, log := s.log[id := LogOf(s.log, id) + Greeting(s)])
      case Unsubscribe(id) => s.(conns := s.conns - {id})
      case Broadcast(msg) =>
        s.(online := NewOnline(s.online, msg),
           zmodem := NewZmodem(s.zmodem, msg),
           recent := if msg.event == DataEvent then Push(s.recent, msg) else s.recent,
           log := Spread(s.log, s.conns, msg))
      case Tick => if s.conns == {} then s.(running := false) else s
  }

  lemma SpreadNone(log: map<ConnId, seq<Delivery>>, msg: Message)
    ensures Spread(log, {}, msg) == log
  {
  }

  lemma SpreadOne(log: map<ConnId, seq<Delivery>>, conns: set<ConnId>, id: ConnId, msg: Message)
    requires id !in conns
    ensures var s := Spread(log, conns, msg);
            Spread(log, conns + {id}, msg) == s[id := LogOf(s, id) + [Deliver(msg)]]
  {
  }

  function Run(s: State, h: seq<Input>): State {
    if h == [] then s else Step(Run(s, h[..|h| - 1]), h[|h| - 1])
  }

  // ---- The actor ----

  class Room {
    var running: bool
    var connMaps: set<ConnId>
    var currentOnlineUsers: map<string, Meta>
    var zmodemStatus: bool
    var recentMessages: array<Option<Message>>  // container/ring of RECENT elements
    var current: nat                            // the element recentMessages points to
    var outbox: map<ConnId, seq<Delivery>>      // what each connection was handed

    /** The ring as Do walks it: from the current element on, which is the oldest. */
    ghost function Walk(): (w: seq<Option<Message>>)
      reads this, recentMessages
      requires recentMessages.Length == RECENT && current < RECENT
      ensures |w| == RECENT
    {
      recentMessages[current..] + recentMessages[..current]
    }

    ghost predicate Valid()
      reads this, recentMessages
    {
      recentMessages.Length == RECENT && current < RECENT && Filled(Walk())
    }

    ghost function View(): State
      reads this, recentMessages
      requires recentMessages.Length == RECENT && current < RECENT
    {
      State(running, connMaps, currentOnlineUsers, zmodemStatus, Present(Walk()), outbox)
    }

    constructor ()
      ensures Valid() && fresh(recentMessages) && View() == EMPTY
    {
      running := true;
      connMaps := {};
      currentOnlineUsers := map[];
      zmodemStatus := false;
      recentMessages := new Option<Message>[RECENT](_ => None);
      current := 0;
      outbox := map[];
      new;
      assert recentMessages[..] == [None, None, None, None, None];
      assert Walk() == recentMessages[..];
      NonePresent(Walk());
    }

    method Send(id: ConnId, d: Delivery)
      modifies this`outbox
      ensures outbox == old(outbox)[id := LogOf(old(outbox), id) + [d]]
    {
      outbox := outbox[id := LogOf(outbox, id) + [d]];
    }

    /** recentMessages.Do: the elements that are there, oldest first. */
    method Replay(id: ConnId)
      requires Valid() && id in outbox
      modifies this`outbox
      ensures outbox == old(outbox)[id := old(outbox)[id] + Writes(Present(Walk()))]
    {
      hide Writes, Present;
      ghost var walk, sent := Walk(), [];
      var k := 0;
      assert walk[0..] == walk && [] + Writes(Present(walk)) == Writes(Present(walk));
      assert outbox[id] + [] == outbox[id];
      while k < RECENT
        invariant 0 <= k <= RECENT
        invariant outbox == old(outbox)[id := old(outbox)[id] + sent]
        invariant sent + Writes(Present(walk[k..])) == Writes(Present(walk))
      {
        var slot := if current + k < RECENT then current + k else current + k - RECENT;
        assert recentMessages[slot] == walk[k] == walk[k..][0];
        PresentHead(walk[k..]);
        assert walk[k..][1..] == walk[k + 1..];
        if recentMessages[slot].Some? {
          var d := Wrote(recentMessages[slot].value.body);
          Send(id, d);
          assert old(outbox)[id] + (sent + [d]) == (old(outbox)[id] + sent) + [d];
          assert (sent + [d]) + Writes(Present(walk[k + 1..])) == sent + ([d] + Writes(Present(walk[k + 1..])));
          sent := sent + [d];
        }
        k := k + 1;
      }
      assert walk[RECENT..] == [] && sent + [] == sent;
      NothingPresent();
    }

    method OnSubscribe(id: ConnId)
      requires Valid() && running
      modifies this`connMaps, this`outbox
      ensures Valid() && View() == Step(old(View()), Subscribe(id))
    {
      hide Writes, Present, Filled, Greeting, Spread, NewOnline, NewZmodem, Push, ZmodemNotice;
      ghost var s := View();
      connMaps := connMaps + {id};
      outbox := outbox[id := LogOf(outbox, id)];
      Notify(id);
      Replay(id);
      Send(id, ToldUsers(currentOnlineUsers));
      GreetingParts(s, LogOf(s.log, id));
    }

    method Notify(id: ConnId)
      requires id in outbox
      modifies this`outbox
      ensures outbox == old(outbox)[id := old(outbox)[id] + ZmodemNotice(zmodemStatus)]
    {
      if zmodemStatus {
        Send(id, Told(Message(ActionEvent, ZMODEM_START, Meta("", "", false))));
      } else {
        assert outbox[id] + [] == outbox[id];
      }
    }

    method OnUnsubscribe(id: ConnId)
      requires Valid() && running
      modifies this`connMaps
      ensures Valid() && View() == Step(old(View()), Unsubscribe(id))
    {
      connMaps := connMaps - {id};
    }

    /** broadcastMessage: one goroutine per connection, so in any order. */
    method BroadcastMessage(msg: Message)
      modifies this`outbox
      ensures outbox == Spread(old(outbox), connMaps, msg)
    {
      var todo := connMaps;
      assert connMaps - todo == {};
      SpreadNone(outbox, msg);
      while todo != {}
        invariant todo <= connMaps
        invariant outbox == Spread(old(outbox), connMaps - todo, msg)
      {
        var id :| id in todo;
        SpreadOne(old(outbox), connMaps - todo, id, msg);
        Send(id, Deliver(msg));
        assert (connMaps - todo) + {id} == connMaps - (todo - {id});
        todo := todo - {id};
      }
      assert connMaps - todo == connMaps;
    }

    method Remember(msg: Message)
      requires Valid()
      modifies this`current, recentMessages
      ensures Valid() && Present(Walk()) == Push(old(Present(Walk())), msg)
    {
      ghost var was := Walk();
      recentMessages[current] := Some(msg);
      current := if current + 1 < RECENT then current + 1 else 0;
      assert Walk() == was[1..] + [Some(msg)];
      PushWalk(was, msg);
    }

    method OnBroadcast(msg: Message)
      requires Valid() && running
      modifies this`current, this`currentOnlineUsers, this`zmodemStatus, this`outbox, recentMessages
      ensures Valid() && View() == Step(old(View()), Broadcast(msg))
    {
      var key := UserKey(msg.meta);
      match msg.event {
        case DataEvent => Remember(msg);
        case ShareJoin => currentOnlineUsers := currentOnlineUsers[key := msg.meta];
        case ShareLeave => currentOnlineUsers := currentOnlineUsers - {key};
        case ActionEvent =>
          if msg.body == ZMODEM_START {
            zmodemStatus := true;
          } else {
            zmodemStatus := false;
          }
        case _ =>
      }
      BroadcastMessage(msg);
    }

    /** The minute tick: a room without connections ends. */
    method OnTick()
      requires Valid() && running
      modifies this`running
      ensures Valid() && View() == Step(old(View()), Tick)
    {
      if |connMaps| == 0 {
        running := false;
      }
    }
  }

  // ---- The ring ----

  /** Empty elements come first. */
  ghost predicate Filled(walk: seq<Option<Message>>) {
    forall i, j :: 0 <= i < j < |walk| && walk[i].Some? ==> walk[j].Some?
  }

  function Present(walk: seq<Option<Message>>): seq<Message> {
    if walk == [] then []
    else if walk[0].Some? then [walk[0].value] + Present(walk[1..])
    else Present(walk[1..])
  }

  lemma PresentHead(walk: seq<Option<Message>>)
    requires walk != []
    ensures if walk[0].Some?
            then Writes(Present(walk)) == [Wrote(walk[0].value.body)] + Writes(Present(walk[1..]))
            else Writes(Present(walk)) == Writes(Present(walk[1..]))
  {
    if walk[0].Some? {
      assert ([walk[0].value] + Present(walk[1..]))[1..] == Present(walk[1..]);
    }
  }

  lemma {:induction false} NonePresent(walk: seq<Option<Message>>)
    requires forall i :: 0 <= i < |walk| ==> walk[i] == None
    ensures Present(walk) == [] && Filled(walk)
  {
    if walk != [] {
      NonePresent(walk[1..]);
    }
  }

  lemma NothingPresent()
    ensures Writes(Present([])) == []
  {
  }

  lemma {:induction false} PresentSnoc(walk: seq<Option<Message>>, msg: Message)
    ensures Present(walk + [Some(msg)]) == Present(walk) + [msg]
  {
    if walk == [] {
      assert (walk + [Some(msg)])[1..] == [];
    } else {
      assert (walk + [Some(msg)])[1..] == walk[1..] + [Some(msg)];
      PresentSnoc(walk[1..], msg);
    }
  }

  /** A ring is full exactly when its oldest element is there. */
  lemma {:induction false} PresentLength(walk: seq<Option<Message>>)
    requires Filled(walk)
    ensures |Present(walk)| <= |walk|
    ensures walk != [] ==> (|Present(walk)| == |walk| <==> walk[0].Some?)
  {
    if walk != [] {
      assert Filled(walk[1..]);
      PresentLength(walk[1..]);
    }
  }

  lemma PushWalk(walk: seq<Option<Message>>, msg: Message)
    requires |walk| == RECENT && Filled(walk)
    ensures Present(walk[1..] + [Some(msg)]) == Push(Present(walk), msg)
    ensures Filled(walk[1..] + [Some(msg)])
  {
    PresentSnoc(walk[1..], msg);
    PresentLength(walk);
  }

  // ---- Whole histories ----

  /** The messages broadcast, in order. */
  function Broadcasts(h: seq<Input>): seq<Message> {
    if h == [] then []
    else Broadcasts(h[..|h| - 1]) + if h[|h| - 1].Broadcast? then [h[|h| - 1].msg] else []
  }

  /** The data messages among them. */
  function DataOf(msgs: seq<Message>): seq<Message> {
    if msgs == [] then []
    else DataOf(msgs[..|msgs| - 1]) + if msgs[|msgs| - 1].event == DataEvent then [msgs[|msgs| - 1]] else []
  }

  function Deliveries(msgs: seq<Message>): seq<Delivery> {
    if msgs == [] then [] else Deliveries(msgs[..|msgs| - 1]) + [Deliver(msgs[|msgs| - 1])]
  }

  function LastN<T>(n: nat, s: seq<T>): seq<T> {
    if |s| <= n then s else s[|s| - n..]
  }

  lemma BroadcastsLast(h: seq<Input>)
    requires h != []
    ensures var init, last := Broadcasts(h[..|h| - 1]), h[|h| - 1];
            Broadcasts(h) == if last.Broadcast? then init + [last.msg] else init
  {
  }

  lemma DataSnoc(msgs: seq<Message>, msg: Message)
    ensures DataOf(msgs + [msg]) == if msg.event == DataEvent then DataOf(msgs) + [msg] else DataOf(msgs)
    ensures Deliveries(msgs + [msg]) == Deliveries(msgs) + [Deliver(msg)]
  {
    assert (msgs + [msg])[..|msgs|] == msgs;
  }

  lemma RunSnoc(s: State, h: seq<Input>, i: Input)
    ensures Run(s, h + [i]) == Step(Run(s, h), i)
  {
    assert (h + [i])[..|h|] == h;
  }

  /** While it runs, the room remembers exactly the last RECENT data messages broadcast to it. */
  lemma {:induction false} RecentIsLastData(h: seq<Input>)
    requires Run(EMPTY, h).running
    ensures Run(EMPTY, h).recent == LastN(5, DataOf(Broadcasts(h)))
    decreases |h|
  {
    hide Spread, NewOnline, NewZmodem, Greeting, Push, LastN, DataOf, Broadcasts;
    if h == [] {
      NoBroadcasts();
      LastOfNothing();
    } else {
      var init, last := h[..|h| - 1], h[|h| - 1];
      RecentIsLastData(init);
      BroadcastsLast(h);
      if last.Broadcast? {
        DataSnoc(Broadcasts(init), last.msg);
        if last.msg.event == DataEvent {
          PushIsLast(DataOf(Broadcasts(init)), last.msg);
        }
      }
    }
  }

  lemma LastOfNothing()
    ensures LastN(RECENT, DataOf([])) == []
  {
  }

  lemma PushIsLast(data: seq<Message>, msg: Message)
    ensures Push(LastN(RECENT, data), msg) == LastN(RECENT, data + [msg])
  {
  }

  /** A connection is subscribed throughout, and receives each broadcast once and in order. */
  lemma {:induction false} LiveDeliveries(s: State, id: ConnId, h: seq<Input>)
    requires s.running && id in s.conns
    requires Subscribe(id) !in h && Unsubscribe(id) !in h
    ensures var r := Run(s, h);
            && r.running && id in r.conns
            && LogOf(r.log, id) == LogOf(s.log, id) + Deliveries(Broadcasts(h))
    decreases |h|
  {
    hide Greeting, NewOnline, NewZmodem, Push, Broadcasts;
    if h != [] {
      var init, last := h[..|h| - 1], h[|h| - 1];
      assert forall i :: i in init ==> i in h;
      LiveDeliveries(s, id, init);
      BroadcastsLast(h);
      if last.Broadcast? {
        var msgs := Broadcasts(init);
        DataSnoc(msgs, last.msg);
        assert LogOf(s.log, id) + (Deliveries(msgs) + [Deliver(last.msg)]) ==
               (LogOf(s.log, id) + Deliveries(msgs)) + [Deliver(last.msg)];
      } else {
        StepIsQuiet(Run(s, init), id, last);
      }
    } else {
      NoBroadcasts();
      assert LogOf(s.log, id) + [] == LogOf(s.log, id);
    }
  }

  lemma NoBroadcasts()
    ensures Broadcasts([]) == []
  {
  }

  lemma StepIsQuiet(s: State, id: ConnId, i: Input)
    requires s.running && id in s.conns && !i.Broadcast? && i != Subscribe(id) && i != Unsubscribe(id)
    ensures var r := Step(s, i);
            r.running && id in r.conns && LogOf(r.log, id) == LogOf(s.log, id)
  {
  }

  /** A connection that is not subscribed receives nothing. */
  lemma {:induction false} NoDeliveries(s: State, id: ConnId, h: seq<Input>)
    requires id !in s.conns && Subscribe(id) !in h
    ensures var r := Run(s, h);
            id !in r.conns && LogOf(r.log, id) == LogOf(s.log, id)
    decreases |h|
  {
    hide Greeting, NewOnline, NewZmodem, Push, Broadcasts;
    if h != [] {
      var init := h[..|h| - 1];
      assert forall i :: i in init ==> i in h;
      NoDeliveries(s, id, init);
    }
  }

  lemma {:induction false} RunAppend(s: State, a: seq<Input>, b: seq<Input>)
    ensures Run(s, a + b) == Run(Run(s, a), b)
    decreases |b|
  {
    if b == [] {
      assert a + b == a;
    } else {
      var init, last := b[..|b| - 1], b[|b| - 1];
      assert a + b == (a + init) + [last];
      RunSnoc(s, a + init, last);
      RunAppend(s, a, init);
    }
  }

  /**
   Replay, for every history: a connection with a fresh id that subscribes after `before`, stays during
   `during` and leaves before `after` has been handed, in this order and nothing else: the ZMODEM notice if
   one is due, the last five data messages broadcast before it came, the users online, and then every
   message broadcast while it stayed, each once.
   */
  lemma ReplayThenLive(before: seq<Input>, id: ConnId, during: seq<Input>, after: seq<Input>)
    requires Run(EMPTY, before).running
    requires Subscribe(id) !in before && Subscribe(id) !in during && Unsubscribe(id) !in during && Subscribe(id) !in after
    ensures var h := before + [Subscribe(id)] + during + [Unsubscribe(id)] + after;
            var s := Run(EMPTY, before);
            LogOf(Run(EMPTY, h).log, id) ==
              (if LastAction(Broadcasts(before)) == Some("ZMODEM_START")
               then [Told(Message(ActionEvent, "ZMODEM_START", Meta("", "", false)))] else [])
              + Writes(LastN(5, DataOf(Broadcasts(before))))
              + [ToldUsers(s.online)]
              + Deliveries(Broadcasts(during))
  {
    hide Step, Run, Writes, DataOf, Broadcasts, Deliveries, LastN;
    PresenceIsLast(before, "");
    var s := Run(EMPTY, before);
    StartsAbsent(id);
    NoDeliveries(EMPTY, id, before);
    RecentIsLastData(before);
    var s1 := Step(s, Subscribe(id));
    SubscribeStep(s, id);
    LiveDeliveries(s1, id, during);
    var s2 := Run(s1, during);
    var s3 := Step(s2, Unsubscribe(id));
    UnsubscribeStep(s2, id);
    NoDeliveries(s3, id, after);
    var h1 := before + [Subscribe(id)];
    RunSnoc(EMPTY, before, Subscribe(id));
    RunAppend(EMPTY, h1, during);
    RunSnoc(EMPTY, h1 + during, Unsubscribe(id));
    RunAppend(EMPTY, h1 + during + [Unsubscribe(id)], after);
    assert [] + Greeting(s) == Greeting(s);
  }

  lemma StartsAbsent(id: ConnId)
    ensures id !in EMPTY.conns && LogOf(EMPTY.log, id) == []
  {
  }

  lemma SubscribeStep(s: State, id: ConnId)
    requires s.running
    ensures var r := Step(s, Subscribe(id));
            r.running && id in r.conns && LogOf(r.log, id) == LogOf(s.log, id) + Greeting(s)
  {
  }

  lemma UnsubscribeStep(s: State, id: ConnId)
    requires s.running
    ensures var r := Step(s, Unsubscribe(id));
            id !in r.conns && LogOf(r.log, id) == LogOf(s.log, id)
  {
  }

  // ---- Presence ----

  /** The last word on a user: joined with this data, or not there. */
  function LastPresence(msgs: seq<Message>, key: string): Option<Meta> {
    if msgs == [] then None
    else
      var last := msgs[|msgs| - 1];
      if last.event == ShareJoin && UserKey(last.meta) == key then Some(last.meta)
      else if last.event == ShareLeave && UserKey(last.meta) == key then None
      else LastPresence(msgs[..|msgs| - 1], key)
  }

  function LastAction(msgs: seq<Message>): Option<Body> {
    if msgs == [] then None
    else if msgs[|msgs| - 1].event == ActionEvent then Some(msgs[|msgs| - 1].body)
    else LastAction(msgs[..|msgs| - 1])
  }

  /** The user map and the ZMODEM flag are what the broadcasts say about each user and about transfers last. */
  lemma {:induction false} PresenceIsLast(h: seq<Input>, key: string)
    requires Run(EMPTY, h).running
    ensures var s := Run(EMPTY, h);
            && (if key in s.online then LastPresence(Broadcasts(h), key) == Some(s.online[key])
                else LastPresence(Broadcasts(h), key) == None)
            && (s.zmodem <==> LastAction(Broadcasts(h)) == Some(ZMODEM_START))
    decreases |h|
  {
    hide Greeting, Spread, Push, Broadcasts, LastPresence, LastAction;
    if h == [] {
      NoBroadcasts();
      SaysNothing(key);
    } else {
      var init, last := h[..|h| - 1], h[|h| - 1];
      PresenceIsLast(init, key);
      BroadcastsLast(h);
      if last.Broadcast? {
        SaysLast(Broadcasts(init), last.msg, key);
      }
    }
  }

  /** Who is connected: those whose last word, while the room ran, was to subscribe. */
  function LastWord(h: seq<Input>, id: ConnId): Option<Input> {
    if h == [] then None
    else if h[|h| - 1] == Subscribe(id) || h[|h| - 1] == Unsubscribe(id) then Some(h[|h| - 1])
    else LastWord(h[..|h| - 1], id)
  }

  lemma {:induction false} ConnectedIsLastWord(h: seq<Input>, id: ConnId)
    requires Run(EMPTY, h).running
    ensures id in Run(EMPTY, h).conns <==> LastWord(h, id) == Some(Subscribe(id))
    decreases |h|
  {
    hide Spread, NewOnline, NewZmodem, Greeting, Push;
    if h != [] {
      ConnectedIsLastWord(h[..|h| - 1], id);
    }
  }

  /** A tick ends the room exactly when nobody is connected, and nothing else ends it. */
  lemma TickEnds(h: seq<Input>, i: Input)
    requires Run(EMPTY, h).running
    ensures !Run(EMPTY, h + [i]).running <==> i == Tick && forall id :: LastWord(h, id) != Some(Subscribe(id))
  {
    RunSnoc(EMPTY, h, i);
    forall id
      ensures id in Run(EMPTY, h).conns <==> LastWord(h, id) == Some(Subscribe(id))
    {
      ConnectedIsLastWord(h, id);
    }
  }

  /** The keys of two sessions whose creation times are written equally long differ unless user and time are the same. */
  lemma SessionsKeptApart(a: Meta, b: Meta)
    requires |a.created| == |b.created|
    ensures UserKey(a) == UserKey(b) <==> a.user == b.user && a.created == b.created
  {
    var x, y := UserKey(a), UserKey(b);
    if x == y {
      assert a.user == x[..|x| - |a.created|] && b.user == y[..|y| - |b.created|];
      assert a.created == x[|a.user|..] && b.created == y[|b.user|..];
    }
  }

  /** Times of different lengths can make two users one. */
  lemma UsersMerge()
    ensures UserKey(Meta("a1", "2", true)) == UserKey(Meta("a", "12", true))
  {
  }

  /** While the room runs: a user who joined and did not leave since, by the last message with its key, is online. */
  lemma JoinedIsOnline(h: seq<Input>, meta: Meta)
    requires Run(EMPTY, h + [Broadcast(Message(ShareJoin, "", meta))]).running
    ensures var s := Run(EMPTY, h + [Broadcast(Message(ShareJoin, "", meta))]);
            && meta.user + meta.created in s.online && s.online[meta.user + meta.created] == meta
            && forall key :: key != meta.user + meta.created && key in Run(EMPTY, h).online ==>
                 key in s.online && s.online[key] == Run(EMPTY, h).online[key]
  {
    RunSnoc(EMPTY, h, Broadcast(Message(ShareJoin, "", meta)));
  }

  lemma SaysNothing(key: string)
    ensures LastPresence([], key) == None && LastAction([]) == None
  {
  }

  lemma SaysLast(msgs: seq<Message>, msg: Message, key: string)
    ensures LastPresence(msgs + [msg], key) ==
              if msg.event == ShareJoin && UserKey(msg.meta) == key then Some(msg.meta)
              else if msg.event == ShareLeave && UserKey(msg.meta) == key then None
              else LastPresence(msgs, key)
    ensures LastAction(msgs + [msg]) == if msg.event == ActionEvent then Some(msg.body) else LastAction(msgs)
  {
    assert (msgs + [msg])[..|msgs|] == msgs;
  }
}
