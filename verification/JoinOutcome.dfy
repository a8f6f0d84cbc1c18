/**
 What becomes of a call that waits for its answer. It can still be answered until a step of another call with its
 id takes its entry off the register; the steps that do are named, and nothing brings the entry back.
 */
module JoinOutcome {
  import opened Options
  import opened Join

  predicate OnChannel(pc: Pc, ch: Channel) {
    (pc.Waiting? || pc.TimedOut?) && pc.ch == ch
  }

  predicate Served(s: State, ch: Channel) {
    s.owner != Selecting && s.owner.ch == ch
  }

  predicate Answered(s: State, ch: Channel) {
    ch in s.chans && s.chans[ch].content != []
  }

  predicate Registered(s: State, ch: Channel) {
    ch in s.chans && s.chans[ch].req.id in s.requests && s.requests[s.chans[ch].req.id] == ch
  }

  predicate Live(s: State, ch: Channel) {
    Served(s, ch) || Answered(s, ch) || Registered(s, ch)
  }

  /** Never sent to, not being served and registered nowhere. */
  predicate Dead(s: State, ch: Channel) {
    ch in s.chans && s.chans[ch].sends == 0 && !Live(s, ch)
  }

  /** The step takes the entry of another call off the register, or replaces it. */
  predicate Loses(s: State, step: Step, ch: Channel)
    requires Enabled(s, step)
  {
    && Registered(s, ch)
    && var id := s.chans[ch].req.id;
       match step
       case ServePublished => s.owner.req.kind == JoinEvent && s.owner.req.id == id
       case ServeFailed => s.owner.req.kind == ExitEvent && s.owner.req.id == id
       case Cancel(d) => PcOf(s, d).req.id == id && PcOf(s, d).ch != ch
       case _ => false
  }

  predicate LosesIn(s: State, steps: seq<Step>, ch: Channel)
    requires IsRun(s, steps)
    decreases |steps|
  {
    steps != [] && (Loses(s, steps[0], ch) || LosesIn(Apply(s, steps[0]), steps[1..], ch))
  }

  // ---- More of the invariant: who waits, and for what ----

  /** What has been sent to a waiting caller is still there, and an answer was sent. */
  predicate PcSound(s: State, pc: Pc) {
    match pc
    case Waiting(_, ch) => ch in s.chans && s.chans[ch].sends == |s.chans[ch].content|
    case TimedOut(_, ch) => ch in s.chans && s.chans[ch].sends == |s.chans[ch].content|
    case Finished(_, ch, answer) => answer.Some? ==> ch in s.chans && s.chans[ch].sends > 0
    case _ => true
  }

  ghost predicate PcsSound(s: State) {
    forall c: Caller :: PcSound(s, PcOf(s, c))
  }

  /** The caller a channel was made for waits on it. */
  predicate Awaits(s: State, ch: Channel) {
    ch in s.chans && OnChannel(PcOf(s, s.chans[ch].caller), ch)
  }

  /** A channel that is served or registered is waited on, and its request was announced to the other nodes. */
  ghost predicate Awaited(s: State) {
    && (s.owner.Serving? ==> Awaits(s, s.owner.ch))
    && (forall id :: id in s.requests ==> Awaits(s, s.requests[id]) && id in s.published)
  }

  ghost predicate Sound(s: State) {
    Inv(s) && PcsSound(s) && Awaited(s)
  }

  /** Only its own caller takes from a channel. */
  lemma OwnChannel(s: State, c: Caller, d: Caller, ch: Channel)
    requires Inv(s) && OnChannel(PcOf(s, c), ch) && OnChannel(PcOf(s, d), ch)
    ensures c == d
  {
    assert PcOk(s, c, PcOf(s, c)) && PcOk(s, d, PcOf(s, d));
  }

  lemma PcSoundStep(s: State, step: Step, c: Caller)
    requires Inv(s) && PcsSound(s) && Enabled(s, step)
    ensures PcSound(Apply(s, step), PcOf(Apply(s, step), c))
  {
    hide RequestsOk, Answers;
    assert PcOk(s, c, PcOf(s, c)) && PcSound(s, PcOf(s, c));
    match step
    case Take(d) =>
      assert PcOk(s, d, PcOf(s, d)) && PcSound(s, PcOf(s, d));
    case _ =>
  }

  lemma PcsSoundStep(s: State, step: Step)
    requires Inv(s) && PcsSound(s) && Enabled(s, step)
    ensures PcsSound(Apply(s, step))
  {
    hide Inv, PcSound, Enabled, Apply;
    forall c: Caller
      ensures PcSound(Apply(s, step), PcOf(Apply(s, step), c))
    {
      PcSoundStep(s, step, c);
    }
  }

  /** A channel not sent to stays waited on, unless its own caller cancels. */
  lemma AwaitsStep(s: State, step: Step, ch: Channel)
    requires ChansOk(s) && Enabled(s, step) && Awaits(s, ch) && Unused(s, ch)
    requires step.Cancel? ==> step.c != s.chans[ch].caller
    ensures Awaits(Apply(s, step), ch)
  {
    hide ChanOk;
  }

  lemma ServedAwaited(s: State, step: Step)
    requires Inv(s) && Awaited(s) && Enabled(s, step) && Apply(s, step).owner.Serving?
    ensures Awaits(Apply(s, step), Apply(s, step).owner.ch)
  {
    hide ChanOk, Answers, RequestsOk;
    if step.Hand? {
      assert PcOk(s, step.c, PcOf(s, step.c));
    } else {
      AwaitsStep(s, step, s.owner.ch);
    }
  }

  lemma RegisteredAwaited(s: State, step: Step, id: ReqId)
    requires Inv(s) && Awaited(s) && Enabled(s, step) && id in Apply(s, step).requests
    ensures Awaits(Apply(s, step), Apply(s, step).requests[id]) && id in Apply(s, step).published
  {
    hide ChanOk, Answers, PcsOk;
    var t := Apply(s, step);
    if id in s.requests && t.requests[id] == s.requests[id] {
      var ch := s.requests[id];
      assert Unused(s, ch) && s.chans[ch].req.id == id;
      if step.Cancel? && step.c == s.chans[ch].caller {
        CancelsOwn(s, step.c, ch);
      }
      AwaitsStep(s, step, ch);
    }
  }

  /** A cancel takes the caller's own entry off the register. */
  lemma CancelsOwn(s: State, c: Caller, ch: Channel)
    requires PcsOk(s) && OnChannel(PcOf(s, c), ch)
    ensures ch in s.chans && PcOf(s, c).req.id == s.chans[ch].req.id
  {
    assert PcOk(s, c, PcOf(s, c));
  }

  lemma AwaitedStep(s: State, step: Step)
    requires Inv(s) && Awaited(s) && Enabled(s, step)
    ensures Awaited(Apply(s, step))
  {
    hide Inv, Awaits, Enabled, Apply;
    var t := Apply(s, step);
    if t.owner.Serving? {
      ServedAwaited(s, step);
    }
    forall id | id in t.requests
      ensures Awaits(t, t.requests[id]) && id in t.published
    {
      RegisteredAwaited(s, step, id);
    }
  }

  lemma SoundStep(s: State, step: Step)
    requires Sound(s) && Enabled(s, step)
    ensures Sound(Apply(s, step))
  {
    hide Inv, PcsSound, Awaited, Enabled, Apply;
    InvStep(s, step);
    PcsSoundStep(s, step);
    AwaitedStep(s, step);
  }

  lemma {:induction false} SoundAlways(s: State, steps: seq<Step>)
    requires Sound(s) && IsRun(s, steps)
    ensures Sound(After(s, steps))
    decreases |steps|
  {
    hide Sound, Enabled, Apply;
    if steps != [] {
      SoundStep(s, steps[0]);
      SoundAlways(Apply(s, steps[0]), steps[1..]);
    }
  }

  lemma SoundInit()
    ensures Sound(INIT)
  {
  }

  // ---- Dead is for ever ----

  lemma DeadStep(s: State, step: Step, ch: Channel)
    requires Inv(s) && Enabled(s, step) && Dead(s, ch)
    ensures Dead(Apply(s, step), ch)
  {
    hide PcsOk, ChanOk, Answers;
  }

  lemma {:induction false} DeadRun(s: State, steps: seq<Step>, ch: Channel)
    requires Inv(s) && IsRun(s, steps) && Dead(s, ch)
    ensures Dead(After(s, steps), ch)
    decreases |steps|
  {
    hide Inv, Enabled, Apply, Dead;
    if steps != [] {
      InvStep(s, steps[0]);
      DeadStep(s, steps[0], ch);
      DeadRun(Apply(s, steps[0]), steps[1..], ch);
    }
  }

  lemma LosingStepKills(s: State, step: Step, ch: Channel)
    requires Inv(s) && Enabled(s, step) && Loses(s, step, ch)
    ensures Dead(Apply(s, step), ch)
  {
    hide PcsOk, ChanOk, Answers;
    assert Unused(s, ch);
  }

  lemma {:induction false} LostIsDead(s: State, steps: seq<Step>, ch: Channel)
    requires Inv(s) && IsRun(s, steps) && LosesIn(s, steps, ch)
    ensures Dead(After(s, steps), ch)
    decreases |steps|
  {
    hide Inv, Enabled, Apply, Dead, Loses;
    InvStep(s, steps[0]);
    if Loses(s, steps[0], ch) {
      LosingStepKills(s, steps[0], ch);
      DeadRun(Apply(s, steps[0]), steps[1..], ch);
    } else {
      LostIsDead(Apply(s, steps[0]), steps[1..], ch);
    }
  }

  // ---- Nothing else kills ----

  /** While its caller waits, a channel that is live stays so unless the step loses it. */
  lemma LiveStep(s: State, step: Step, c: Caller, ch: Channel)
    requires Inv(s) && Enabled(s, step) && OnChannel(PcOf(s, c), ch) && Live(s, ch)
    requires OnChannel(PcOf(Apply(s, step), c), ch) && !Loses(s, step, ch)
    ensures Live(Apply(s, step), ch)
  {
    hide ChanOk, Answers;
    assert PcOk(s, c, PcOf(s, c));
    match step
    case Take(d) =>
      if PcOf(s, d).ch == ch {
        OwnChannel(s, c, d, ch);
      }
    case Cancel(d) =>
      if PcOf(s, d).ch == ch {
        OwnChannel(s, c, d, ch);
      }
    case _ =>
  }

  /** A caller comes to wait on a channel that is being served for it. */
  lemma StartsLive(s: State, step: Step, c: Caller, ch: Channel)
    requires Enabled(s, step) && !OnChannel(PcOf(s, c), ch) && OnChannel(PcOf(Apply(s, step), c), ch)
    ensures Live(Apply(s, step), ch)
  {
  }

  lemma {:induction false} LiveUnlessLost(s: State, steps: seq<Step>, c: Caller, ch: Channel)
    requires Inv(s) && IsRun(s, steps) && !LosesIn(s, steps, ch)
    requires OnChannel(PcOf(s, c), ch) ==> Live(s, ch)
    ensures OnChannel(PcOf(After(s, steps), c), ch) ==> Live(After(s, steps), ch)
    decreases |steps|
  {
    hide Inv, Enabled, Apply, Live, Loses, OnChannel;
    if steps != [] {
      var t := Apply(s, steps[0]);
      InvStep(s, steps[0]);
      if OnChannel(PcOf(t, c), ch) {
        if OnChannel(PcOf(s, c), ch) {
          LiveStep(s, steps[0], c, ch);
        } else {
          StartsLive(s, steps[0], c, ch);
        }
      }
      LiveUnlessLost(t, steps[1..], c, ch);
    }
  }

  // ---- Live means answerable ----

  /** The caller's call on this channel has ended with an answer. */
  predicate GotAnswer(s: State, c: Caller, ch: Channel) {
    PcOf(s, c).Finished? && PcOf(s, c).ch == ch && PcOf(s, c).answer.Some?
  }

  /** ... and with success, which for a join means the room it asked for. */
  predicate Succeeded(s: State, c: Caller, ch: Channel) {
    && GotAnswer(s, c, ch)
    && !PcOf(s, c).answer.value.failed
    && (PcOf(s, c).req.kind == JoinEvent ==> PcOf(s, c).answer.value.room == Some(PcOf(s, c).req.room))
  }

  /** A failure lies in the channel. */
  predicate Refused(s: State, ch: Channel) {
    ch in s.chans && s.chans[ch].content != [] && s.chans[ch].content[0].failed
  }

  lemma OneStep(s: State, step: Step, rest: seq<Step>)
    requires Enabled(s, step) && IsRun(Apply(s, step), rest)
    ensures IsRun(s, [step] + rest) && After(s, [step] + rest) == After(Apply(s, step), rest)
  {
    assert ([step] + rest)[1..] == rest;
  }

  lemma TakeAnswers(s: State, c: Caller, ch: Channel) returns (more: seq<Step>)
    requires Inv(s) && OnChannel(PcOf(s, c), ch) && Answered(s, ch)
    ensures IsRun(s, more) && GotAnswer(After(s, more), c, ch)
    ensures !Refused(s, ch) ==> Succeeded(After(s, more), c, ch)
  {
    hide RequestsOk, OwnerOk;
    assert PcOk(s, c, PcOf(s, c)) && ChanOk(s.chans[ch]);
    var none: seq<Step> := [];
    assert IsRun(Apply(s, Take(c)), none);
    OneStep(s, Take(c), none);
    more := [Take(c)] + none;
  }

  /** With the goroutine back in its select, a success message of another node is an answer. */
  lemma SuccessAnswers(s: State, c: Caller, ch: Channel) returns (more: seq<Step>)
    requires Sound(s) && s.owner == Selecting && OnChannel(PcOf(s, c), ch) && (Registered(s, ch) || Answered(s, ch))
    ensures IsRun(s, more) && GotAnswer(After(s, more), c, ch)
    ensures !Refused(s, ch) ==> Succeeded(After(s, more), c, ch)
  {
    hide PcsOk, PcsSound, IsRun, After, Succeeded;
    if Answered(s, ch) {
      more := TakeAnswers(s, c, ch);
    } else {
      var step := Success(s.chans[ch].req.id, false);
      InvStep(s, step);
      more := TakeAnswers(Apply(s, step), c, ch);
      OneStep(s, step, more);
      more := [step] + more;
    }
  }

  /** What is being served can be finished well for its own caller, and for others without touching the register. */
  function Serve(s: State, ch: Channel): Step
    requires s.owner.Serving?
  {
    if s.owner.req.kind == ExitEvent then ServePublished
    else if s.owner.req.room in s.remote then ServeCached
    else if s.owner.ch == ch then ServePublished
    else ServeFailed
  }

  lemma ServeAnswers(s: State, c: Caller, ch: Channel) returns (more: seq<Step>)
    requires Sound(s) && s.owner.Serving? && OnChannel(PcOf(s, c), ch) && Live(s, ch)
    ensures IsRun(s, more) && GotAnswer(After(s, more), c, ch)
    ensures !Refused(s, ch) ==> Succeeded(After(s, more), c, ch)
  {
    hide PcsOk, PcsSound, Sound, IsRun, After, Succeeded, Refused;
    var step := Serve(s, ch);
    ServeKeeps(s, ch);
    SoundStep(s, step);
    more := SuccessAnswers(Apply(s, step), c, ch);
    OneStep(s, step, more);
    more := [step] + more;
  }

  lemma ServeKeeps(s: State, ch: Channel)
    requires Sound(s) && s.owner.Serving? && Live(s, ch)
    ensures Enabled(s, Serve(s, ch))
    ensures var t := Apply(s, Serve(s, ch)); t.owner == Selecting && t.pcs == s.pcs && Live(t, ch) && (Refused(t, ch) ==> Refused(s, ch))
  {
    hide PcsOk, PcsSound;
  }

  lemma LiveIsAnswerable(s: State, c: Caller, ch: Channel) returns (more: seq<Step>)
    requires Sound(s) && OnChannel(PcOf(s, c), ch) && Live(s, ch)
    ensures IsRun(s, more) && GotAnswer(After(s, more), c, ch)
    ensures !Refused(s, ch) ==> Succeeded(After(s, more), c, ch)
  {
    hide PcsOk, PcsSound, Awaited, Live, IsRun, After, Succeeded;
    match s.owner
    case Selecting =>
      assert Registered(s, ch) || Answered(s, ch) by { SelectingServesNone(s, ch); }
      more := SuccessAnswers(s, c, ch);
    case Serving(_, _) =>
      more := ServeAnswers(s, c, ch);
    case Handing(_, _) =>
      var d := s.chans[s.owner.ch].caller;
      var t := Apply(s, Hand(d));
      SoundStep(s, Hand(d));
      HandKeeps(s, d, c, ch);
      more := ServeAnswers(t, c, ch);
      OneStep(s, Hand(d), more);
      more := [Hand(d)] + more;
  }

  lemma SelectingServesNone(s: State, ch: Channel)
    requires s.owner == Selecting && Live(s, ch)
    ensures Registered(s, ch) || Answered(s, ch)
  {
  }

  lemma HandKeeps(s: State, d: Caller, c: Caller, ch: Channel)
    requires Enabled(s, Hand(d)) && OnChannel(PcOf(s, c), ch) && Live(s, ch)
    ensures var t := Apply(s, Hand(d)); OnChannel(PcOf(t, c), ch) && Live(t, ch) && (Refused(t, ch) ==> Refused(s, ch))
  {
  }

  // ---- The main results ----

  /** The one answer there will be is, or was, a failure. */
  predicate Spoiled(s: State, c: Caller, ch: Channel) {
    && ch in s.chans && s.chans[ch].sends == 1 && (s.chans[ch].content == [] || Refused(s, ch))
    && !Succeeded(s, c, ch)
  }

  lemma SpoiledStep(s: State, step: Step, c: Caller, ch: Channel)
    requires Inv(s) && Enabled(s, step) && Spoiled(s, c, ch)
    ensures Spoiled(Apply(s, step), c, ch)
  {
    hide PcsOk, Answers;
  }

  lemma {:induction false} SpoiledRun(s: State, steps: seq<Step>, c: Caller, ch: Channel)
    requires Inv(s) && IsRun(s, steps) && Spoiled(s, c, ch)
    ensures !Succeeded(After(s, steps), c, ch)
    decreases |steps|
  {
    hide Inv, Enabled, Apply;
    if steps != [] {
      InvStep(s, steps[0]);
      SpoiledStep(s, steps[0], c, ch);
      SpoiledRun(Apply(s, steps[0]), steps[1..], c, ch);
    }
  }

  lemma RefusedIsSpoiled(s: State, c: Caller, ch: Channel)
    requires Inv(s) && OnChannel(PcOf(s, c), ch) && Refused(s, ch)
    ensures Spoiled(s, c, ch)
  {
    assert ChanOk(s.chans[ch]);
  }

  /**
   Exactly when a waiting call can still be answered, in every run: when no step so far was one that loses its
   entry. Those are the registration of a join with its id, the cancel of another call with its id, and a failed
   exit request with its id. Otherwise no run that follows answers it: its timeout is all that is left. And it can
   still be answered with success, a join with its own room, exactly if besides no failure lies in its channel.
   */
  lemma AnswerableExactly(steps: seq<Step>, c: Caller, ch: Channel)
    requires IsRun(INIT, steps) && OnChannel(PcOf(After(INIT, steps), c), ch)
    ensures var s := After(INIT, steps);
            && ((exists more :: IsRun(s, more) && GotAnswer(After(s, more), c, ch)) <==> !LosesIn(INIT, steps, ch))
            && ((exists more :: IsRun(s, more) && Succeeded(After(s, more), c, ch)) <==>
                  !LosesIn(INIT, steps, ch) && !Refused(s, ch))
  {
    hide IsRun, After, LosesIn, Live, Sound, OnChannel, Refused, GotAnswer;
    SoundInit();
    SoundAlways(INIT, steps);
    SoundMeans(INIT);
    var s := After(INIT, steps);
    SoundMeans(s);
    if LosesIn(INIT, steps, ch) {
      LostIsDead(INIT, steps, ch);
      forall more | IsRun(s, more)
        ensures !GotAnswer(After(s, more), c, ch)
      {
        DeadStaysUnanswered(s, more, c, ch);
      }
    } else {
      NobodyWaits(c, ch);
      LiveUnlessLost(INIT, steps, c, ch);
      var more := LiveIsAnswerable(s, c, ch);
      assert IsRun(s, more) && GotAnswer(After(s, more), c, ch);
      if Refused(s, ch) {
        RefusedIsSpoiled(s, c, ch);
        forall other | IsRun(s, other)
          ensures !Succeeded(After(s, other), c, ch)
        {
          SpoiledRun(s, other, c, ch);
        }
      }
    }
  }

  lemma SoundMeans(s: State)
    requires Sound(s)
    ensures Inv(s)
  {
  }

  lemma NobodyWaits(c: Caller, ch: Channel)
    ensures !OnChannel(PcOf(INIT, c), ch)
  {
  }

  lemma DeadStaysUnanswered(s: State, more: seq<Step>, c: Caller, ch: Channel)
    requires Sound(s) && IsRun(s, more) && Dead(s, ch)
    ensures Dead(After(s, more), ch) && !GotAnswer(After(s, more), c, ch)
  {
    hide IsRun, After, Inv, Awaited;
    DeadRun(s, more, ch);
    SoundAlways(s, more);
    var t := After(s, more);
    assert PcSound(t, PcOf(t, c));
  }

  predicate InFlight(pc: Pc) {
    pc.Sending? || pc.Fetching? || pc.Waiting? || pc.TimedOut?
  }

  /** No two calls in flight share an id. */
  ghost predicate Distinct(s: State) {
    forall b: Caller, c: Caller :: b != c && InFlight(PcOf(s, b)) && InFlight(PcOf(s, c)) ==>
      PcOf(s, b).req.id != PcOf(s, c).req.id
  }

  ghost predicate AlwaysDistinct(s: State, steps: seq<Step>)
    requires IsRun(s, steps)
    decreases |steps|
  {
    Distinct(s) && (steps != [] ==> AlwaysDistinct(Apply(s, steps[0]), steps[1..]))
  }

  /** A step that loses an entry belongs to another call in flight with the same id. */
  lemma LosesNeedsSharedId(s: State, step: Step, ch: Channel) returns (c: Caller, d: Caller)
    requires Sound(s) && Enabled(s, step) && Loses(s, step, ch)
    ensures OnChannel(PcOf(s, c), ch) && c != d
    ensures InFlight(PcOf(s, c)) && InFlight(PcOf(s, d)) && PcOf(s, c).req.id == PcOf(s, d).req.id
  {
    hide ChanOk, Answers, PcsSound;
    c := s.chans[ch].caller;
    CancelsOwn(s, c, ch);
    d := if step.Cancel? then step.c else s.chans[s.owner.ch].caller;
    if !step.Cancel? {
      CancelsOwn(s, d, s.owner.ch);
    }
  }

  lemma DistinctLosesNone(s: State, step: Step, ch: Channel)
    requires Sound(s) && Enabled(s, step) && Distinct(s)
    ensures !Loses(s, step, ch)
  {
    hide Sound, Enabled, Loses, InFlight;
    if Loses(s, step, ch) {
      var c, d := LosesNeedsSharedId(s, step, ch);
    }
  }

  lemma {:induction false} DistinctNeverLoses(s: State, steps: seq<Step>, ch: Channel)
    requires Sound(s) && IsRun(s, steps) && AlwaysDistinct(s, steps)
    ensures !LosesIn(s, steps, ch)
    decreases |steps|
  {
    hide Sound, Enabled, Apply, Loses, Distinct;
    if steps != [] {
      DistinctLosesNone(s, steps[0], ch);
      SoundStep(s, steps[0]);
      DistinctNeverLoses(Apply(s, steps[0]), steps[1..], ch);
    }
  }

  /** As long as no two calls in flight share an id, every waiting call can still be answered. */
  lemma DistinctIdsAnswerable(steps: seq<Step>, c: Caller, ch: Channel)
    requires IsRun(INIT, steps) && AlwaysDistinct(INIT, steps) && OnChannel(PcOf(After(INIT, steps), c), ch)
    ensures var s := After(INIT, steps);
            && Live(s, ch)
            && (exists more :: IsRun(s, more) && GotAnswer(After(s, more), c, ch))
            && (!Refused(s, ch) ==> exists more :: IsRun(s, more) && Succeeded(After(s, more), c, ch))
  {
    hide IsRun, After, LosesIn, AlwaysDistinct, Live, Sound, OnChannel, Refused, GotAnswer, Succeeded;
    SoundInit();
    SoundMeans(INIT);
    DistinctNeverLoses(INIT, steps, ch);
    AnswerableExactly(steps, c, ch);
    NobodyWaits(c, ch);
    LiveUnlessLost(INIT, steps, c, ch);
  }

  lemma {:induction false} StaysCached(s: State, room: RoomId, steps: seq<Step>)
    requires IsRun(s, steps) && room in s.remote && RoomGone(room) !in steps
    ensures room in After(s, steps).remote
    decreases |steps|
  {
    hide Enabled;
    if steps != [] {
      StaysCached(Apply(s, steps[0]), room, steps[1..]);
    }
  }

  /** A room joined once is at hand for the joins that follow, until it is gone: they need no other node. */
  lemma JoinedIsCached(s: State, id: ReqId, steps: seq<Step>)
    requires Enabled(s, Success(id, false)) && id in s.requests
    requires IsRun(Apply(s, Success(id, false)), steps) && RoomGone(id.room) !in steps
    ensures var t := After(Apply(s, Success(id, false)), steps);
            && id.room in t.remote
            && (t.owner.Serving? && t.owner.ch in t.chans && t.owner.req.kind == JoinEvent && t.owner.req.room == id.room ==>
                  Enabled(t, ServeCached) && !Enabled(t, ServePublished) && !Enabled(t, ServeFailed))
  {
    hide IsRun, After;
    StaysCached(Apply(s, Success(id, false)), id.room, steps);
  }

  // ---- Runs in which it goes wrong ----

  /**
   What a shared id costs: when a join is registered under the id of one still waiting, the first one's channel is
   lost for good, whatever happens from then on.
   */
  lemma SharedIdLosesChannel(s: State, rest: seq<Step>)
    requires Inv(s) && Enabled(s, ServePublished) && s.owner.req.kind == JoinEvent && s.owner.req.id in s.requests
    requires IsRun(Apply(s, ServePublished), rest)
    ensures Dead(After(Apply(s, ServePublished), rest), s.requests[s.owner.req.id])
  {
    hide IsRun, After, PcsOk;
    var ch := s.requests[s.owner.req.id];
    LosingStepKills(s, ServePublished, ch);
    InvStep(s, ServePublished);
    DeadRun(Apply(s, ServePublished), rest, ch);
  }

  /** Two callers ask for one room within a second: the first one's channel is lost. */
  lemma SharedIdRun(second: nat, node: string, room: RoomId)
    ensures var steps := Joining(0, second, node, room) + Joining(1, second, node, room);
            && IsRun(INIT, steps)
            && var s := After(INIT, steps);
               && s.requests == map[ReqId(second, node, room) := 1]
               && PcOf(s, 0) == Waiting(Build(second, node, room, JoinEvent), 0) && Dead(s, 0)
               && PcOf(s, 1) == Waiting(Build(second, node, room, JoinEvent), 1)
  {
    SharedIdState(second, node, room);
  }

  /** And when the first one then times out and cancels, it takes the second one's entry along: both are lost. */
  lemma BothLose(second: nat, node: string, room: RoomId)
    ensures var steps := Joining(0, second, node, room) + Joining(1, second, node, room) + [Timeout(0), Cancel(0)];
            && IsRun(INIT, steps)
            && var s := After(INIT, steps);
               && s.requests == map[]
               && PcOf(s, 0) == Finished(Build(second, node, room, JoinEvent), 0, None)
               && PcOf(s, 1) == Waiting(Build(second, node, room, JoinEvent), 1)
               && Dead(s, 0) && Dead(s, 1)
  {
    hide Joining;
    var both := Joining(0, second, node, room) + Joining(1, second, node, room);
    SharedIdRun(second, node, room);
    var s := After(INIT, both);
    SharedIdState(second, node, room);
    var none: seq<Step> := [];
    var t := Apply(s, Timeout(0));
    assert IsRun(Apply(t, Cancel(0)), none);
    OneStep(t, Cancel(0), none);
    OneStep(s, Timeout(0), [Cancel(0)] + none);
    assert [Timeout(0)] + ([Cancel(0)] + none) == [Timeout(0), Cancel(0)];
    RunThen(INIT, both, [Timeout(0), Cancel(0)]);
  }

  lemma SharedIdState(second: nat, node: string, room: RoomId)
    ensures var steps := Joining(0, second, node, room) + Joining(1, second, node, room);
            && IsRun(INIT, steps)
            && After(INIT, steps) == Joined(Joined(INIT, 0, second, node, room), 1, second, node, room)
  {
    JoiningRuns(INIT, 0, second, node, room);
    var s := Joined(INIT, 0, second, node, room);
    JoiningRuns(s, 1, second, node, room);
    RunThen(INIT, Joining(0, second, node, room), Joining(1, second, node, room));
  }

  /** One call up to the wait for the other nodes. */
  function Joining(c: Caller, second: nat, node: string, room: RoomId): seq<Step> {
    [Start(c, second, node, room, JoinEvent), Accept(c), Hand(c), ServePublished]
  }

  function Joined(s: State, c: Caller, second: nat, node: string, room: RoomId): State {
    var req := Build(second, node, room, JoinEvent);
    s.(pcs := s.pcs[c := Waiting(req, s.next)],
       requests := s.requests[req.id := s.next],
       chans := s.chans[s.next := Chan(c, req, [], 0)],
       next := s.next + 1,
       published := s.published + {req.id})
  }

  lemma JoiningRuns(s: State, c: Caller, second: nat, node: string, room: RoomId)
    requires s.owner == Selecting && PcOf(s, c).Idle? && room !in s.remote
    ensures var steps := Joining(c, second, node, room);
            IsRun(s, steps) && After(s, steps) == Joined(s, c, second, node, room)
  {
    var steps := Joining(c, second, node, room);
    var s1 := Apply(s, steps[0]);
    var s2 := Apply(s1, steps[1]);
    var s3 := Apply(s2, steps[2]);
    var s4 := Apply(s3, steps[3]);
    assert s4 == Joined(s, c, second, node, room);
    RunFour(s, steps, s1, s2, s3, s4);
  }

  lemma RunFour(s: State, steps: seq<Step>, s1: State, s2: State, s3: State, s4: State)
    requires |steps| == 4
    requires Enabled(s, steps[0]) && s1 == Apply(s, steps[0])
    requires Enabled(s1, steps[1]) && s2 == Apply(s1, steps[1])
    requires Enabled(s2, steps[2]) && s3 == Apply(s2, steps[2])
    requires Enabled(s3, steps[3]) && s4 == Apply(s3, steps[3])
    ensures IsRun(s, steps) && After(s, steps) == s4
  {
    hide Apply, Enabled;
    var a, b, c, d := steps[1..], steps[1..][1..], steps[1..][1..][1..], steps[1..][1..][1..][1..];
    assert d == [] && c[0] == steps[3] && b[0] == steps[2] && a[0] == steps[1];
    assert IsRun(s4, d) && After(s4, d) == s4;
    assert IsRun(s3, c) && After(s3, c) == s4;
    assert IsRun(s2, b) && After(s2, b) == s4;
    assert IsRun(s1, a) && After(s1, a) == s4;
  }

  lemma {:induction false} RunThen(s: State, a: seq<Step>, b: seq<Step>)
    requires IsRun(s, a) && IsRun(After(s, a), b)
    ensures IsRun(s, a + b) && After(s, a + b) == After(After(s, a), b)
    decreases |a|
  {
    hide Apply, Enabled;
    if a == [] {
      assert a + b == b;
    } else {
      assert (a + b)[0] == a[0] && (a + b)[1..] == a[1..] + b;
      RunThen(Apply(s, a[0]), a[1..], b);
    }
  }
}
