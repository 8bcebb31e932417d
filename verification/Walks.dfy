/**
 Runs written out. `Quietly` is what the I/O thread does when every call comes back at once and
 nothing is read, and the other functions are what single events do to a state they apply to. Each
 is proved to be the step of the machine, and runs are then put together from them.
 */
module Walks {
  import opened Framing
  import opened Wrappers
  import opened Scheduling
  import opened Client

  function Noted(s: State, entry: Option<Entry>): State {
    s.(past := s.past.(log := Extend(s.past.log, entry)))
  }

  function Renewed(c: Channel, now: int): Channel {
    if c.reschedule then c.(reschedule := false, nextDue := now) else c
  }

  predicate SweepsNothing(s: State) {
    && !InFlightExpired(s.sched, s.now)
    && Expired(s.sched.requests, s.now) == [] && Unexpired(s.sched.requests, s.now) == s.sched.requests
  }

  /** Where an I/O thread with empty hands goes on. */
  function GoesOn(s: State, after: After): Option<State> {
    match after
    case ToSelect => Some(s.(pc := Selecting))
    case ToCheck => Some(s.(pc := CheckInFlight))
    case ToRead => Some(s.(pc := Reading))
    case ToTop => Some(s.(pc := LoopTop))
    case ToSend(r) => Some(Noted(s, Some(RequestOut(r))).(pc := Writing(r.body, 0, Ask(r))))
    case ToClear => Some(s.(pc := Clearing))
    case ToStopped => Some(s.(pc := Stopped))
    case _ => None
  }

  function Polls(s: State, k: Source, stamp: int): State {
    var c := ChannelOf(s.sched, k);
    var entry := Polled(k, stamp, c.interval, Due(ChannelOf(s.sched, Scheduling.Other(k)), stamp));
    Noted(s, Some(entry)).(
      sched := AfterPoll(s.sched, k, stamp),
      pc := Writing(PollBody(k), 0, Ask(PollRequest(s.cfg, k, stamp))))
  }

  function HeadOut(s: State): State
    requires s.sched.commands != []
  {
    var c := s.sched.commands[0];
    Noted(s, Some(CommandOut(c.ticket))).(
      pc := Writing(c.body, 0, Queued(c.ticket)), sched := s.sched.(commands := s.sched.commands[1..]))
  }

  /** A step of the I/O thread, where it is one of the plain cases. */
  function Quietly(s: State): Option<State> {
    match s.pc
    case Starting => Some(s.(pc := LoopTop))
    case LoopTop => if s.sched.running then Some(s.(pc := Reschedule)) else None
    case Reschedule =>
      var imu, motor := s.sched.imu, s.sched.motor;
      var entry :=
        if imu.reschedule || motor.reschedule then Some(Rescheduled(imu.reschedule, motor.reschedule)) else None;
      Some(Noted(s, entry).(
        pc := Sweep(false), sched := s.sched.(imu := Renewed(imu, s.now), motor := Renewed(motor, s.now))))
    case Sweep(second) =>
      if !SweepsNothing(s) then None
      else Some(s.(pc := Finishing(if second then ToCheck else ToSelect), hand := [], verdict := NoReply))
    case Finishing(after) => if s.hand == [] then GoesOn(s, after) else None
    case Selecting | Reading => Some(s.(pc := WatchdogCheck))
    case WatchdogCheck =>
      Some(s.(pc := if s.sched.running && s.cfg.watchdogEnabled then WatchdogLock(s.now) else Popping))
    case WatchdogLock(_) => if s.sched.watchdog.None? then Some(s.(pc := Popping)) else None
    case Popping => Some(if s.sched.commands == [] then s.(pc := Sweep(true)) else HeadOut(s))
    case Installing(r) => Some(s.(sched := s.sched.(inFlight := Some(r)), pc := LoopTop))
    case CheckInFlight => Some(s.(pc := if s.sched.inFlight.Some? then LoopTop else PollSelect(s.now)))
    case PollSelect(stamp) =>
      var k := SelectPoll(s.sched, stamp);
      Some(s.(pc := if k.Some? then PollMake(k.value, stamp) else QueryTake(stamp)))
    case PollMake(k, stamp) =>
      if Due(ChannelOf(s.sched, k), stamp) then Some(Polls(s, k, stamp)) else Some(s.(pc := Halting))
    case Halting => Some(s.(sched := s.sched.(running := false), pc := Clearing))
    case _ => None
  }

  lemma QuietPlain(s: State)
    requires Plain(s.pc) && Quietly(s).Some?
    ensures Step(s, Io(Fine)) == Quietly(s).value
  {}

  lemma QuietRegion(s: State)
    requires !Plain(s.pc) && !s.pc.Finishing? && Quietly(s).Some?
    ensures Step(s, Io(Fine)) == Quietly(s).value
  {}

  lemma QuietFinish(s: State)
    requires s.pc.Finishing? && Quietly(s).Some?
    ensures Step(s, Io(Fine)) == Quietly(s).value
  {}

  lemma QuietlySteps(s: State)
    requires Quietly(s).Some?
    ensures Step(s, Io(Fine)) == Quietly(s).value
  {
    if Plain(s.pc) {
      QuietPlain(s);
    } else if s.pc.Finishing? {
      QuietFinish(s);
    } else {
      QuietRegion(s);
    }
  }

  /** The I/O thread takes the only query, with polls disabled, or finds none. */
  function Taken(s: State): Option<State> {
    if !s.pc.QueryTake? then None
    else if s.sched.requests == [] then Some(s.(pc := Finishing(ToTop), hand := [], verdict := NoReply))
    else
      var r := s.sched.requests[0];
      if |s.sched.requests| == 1 && r.deadline > s.pc.stamp && s.sched.imu.interval <= 0 && s.sched.motor.interval <= 0
      then Some(s.(pc := Finishing(ToSend(r)), hand := [], verdict := NoReply, sched := s.sched.(requests := [])))
      else None
  }

  lemma OneLive(q: seq<Scheduling.Request>, now: int)
    requires |q| == 1 && q[0].deadline > now
    ensures Expired(q, now) == [] && Unexpired(q, now) == q && q[1..] == []
  {
    assert q[1..] == [] && [q[0]] + [] == q;
  }

  lemma TakenSteps(s: State)
    requires Taken(s).Some?
    ensures Step(s, Io(Fine)) == Taken(s).value
  {
    if s.sched.requests == [] {
      TakesNone(s);
    } else {
      TakesOne(s);
    }
  }

  lemma TakesNone(s: State)
    requires s.pc.QueryTake? && s.sched.requests == []
    ensures Step(s, Io(Fine)) == s.(pc := Finishing(ToTop), hand := [], verdict := NoReply)
  {}

  lemma TakesOne(s: State)
    requires Taken(s).Some? && s.sched.requests != []
    ensures Step(s, Io(Fine)) == Taken(s).value
  {
    OneLive(s.sched.requests, s.pc.stamp);
  }

  /** The whole frame goes out in one call. */
  function Written(s: State): Option<State> {
    if s.pc.Writing? && s.pc.done == 0 && s.sched.running && ValidPayload(s.pc.body) && !s.pc.job.SafeStop? then
      var body, job := s.pc.body, s.pc.job;
      var past := s.past.(
        chunks := s.past.chunks + [Chunk(body, 0, FrameSize(body))],
        sent := s.past.sent + [body], jobs := s.past.jobs + [job]);
      if job.Queued? then Some(s.(past := past, pc := Sweep(true)))
      else
        var r := job.request;
        Some(s.(past := past, pc := Installing(r),
                device := if r.op == 0 then s.device
                          else s.device.(arrived := s.device.arrived[r.id := r.expected])))
    else None
  }

  lemma WrittenSteps(s: State)
    requires Written(s).Some?
    ensures Step(s, Io(Moved(FrameSize(s.pc.body)))) == Written(s).value
  {}

  /** The only packet on its way is read and completes what is in flight. */
  function Answered(s: State): Option<State> {
    if s.pc.Reading? && |s.device.channel| == 1 && Matches(s.sched, s.device.channel[0].payload) then
      Some(s.(pc := Finishing(ToRead), hand := [s.sched.inFlight.value], verdict := Reply(s.device.channel[0]),
              sched := s.sched.(inFlight := None), device := s.device.(channel := [])))
    else None
  }

  lemma AnsweredSteps(s: State)
    requires Answered(s).Some?
    ensures Step(s, Io(Moved(1))) == Answered(s).value
  {}

  lemma ReadableSteps(s: State)
    requires s.pc == Selecting
    ensures Step(s, Io(Moved(1))) == s.(pc := Reading)
  {}

  /** The caller of the first request in hand is told. */
  function Tells(s: State): Option<State> {
    if s.pc.Finishing? && s.hand != [] && s.hand[0].purpose.Query? then
      var c := Completion(s.hand[0], s.verdict, s.past.safe);
      Some(s.(hand := s.hand[1..],
              past := s.past.(log := s.past.log + [Done(c)], completions := s.past.completions + [c])))
    else None
  }

  lemma TellsSteps(s: State)
    requires Tells(s).Some?
    ensures Step(s, Io(Fine)) == Tells(s).value
  {}

  /** A request in flight times out with nothing queued, and ends the connection. */
  function TimesOut(s: State): Option<State> {
    if s.pc == Sweep(false) && s.sched.requests == [] && SweepStops(s.sched, s.now) then
      Some(s.(pc := StopFlag, hand := [s.sched.inFlight.value], verdict := NoReply,
              sched := s.sched.(inFlight := None)))
    else None
  }

  lemma TimesOutSteps(s: State)
    requires TimesOut(s).Some?
    ensures Step(s, Io(Fine)) == TimesOut(s).value
  {}

  lemma StopFlagSteps(s: State)
    requires s.pc == StopFlag
    ensures Step(s, Io(Fine)) == s.(sched := s.sched.(running := false), pc := Finishing(ToClear))
  {}

  lemma ClearingSteps(s: State)
    requires s.pc == Clearing && s.sched.requests == [] && s.sched.inFlight.None?
    ensures Step(s, Io(Fine)) ==
            s.(pc := Finishing(ToStopped), hand := [], verdict := NoReply, sched := Cleared(s.sched))
  {}

  function Started(s: State): State {
    Noted(s, Some(Connected)).(
      pc := Starting,
      sched := s.sched.(
        running := true, imu := s.sched.imu.(nextDue := s.now), motor := s.sched.motor.(nextDue := s.now)),
      past := s.past.(
        log := s.past.log + [Connected], safe := Safe(s), chunks := [], sent := [], jobs := []))
  }

  lemma StartedSteps(s: State)
    requires s.pc == Finishing(ToStart) && s.hand == []
    ensures Step(s, Io(Fine)) == Started(s)
  {}

  /** What callers, the device and the clock do. */
  function Called(s: State, e: Event): Option<State> {
    match e
    case Tick(dt) => Some(s.(now := s.now + dt))
    case Control(body, refresh) =>
      Some(Noted(OnControl(s, body, refresh),
                 if Accepts(s.sched, body) then Some(Accepted(body, refresh, s.now)) else None))
    case SetInterval(k, interval) => Some(Noted(OnSetInterval(s, k, interval), Some(IntervalSet(k))))
    case Connect => Some(OnConnect(s))
    case Lock(script) => Some(OnLock(s, script))
    case Request(free, deadline) => Some(OnRequest(s, free, deadline))
    case Wake(k) => Some(OnWake(s, k))
    case Unlock => Some(OnUnlock(s))
    case DeviceReplies(id, payload) => Some(OnDeviceReplies(s, id, payload))
    case ChannelDrops(k) => Some(OnChannelDrops(s, k))
    case _ => None
  }

  lemma CalledSteps(s: State, e: Event)
    requires Called(s, e).Some?
    ensures Step(s, e) == Called(s, e).value
  {}

  // ---- Going on from a state --------------------------------------------------------------

  /** Whatever is reached is reached by way of steps: a stand-in for any notion of reaching. */
  ghost predicate Closed(reach: State -> bool) {
    forall s, e :: reach(s) ==> reach(Step(s, e))
  }

  lemma Go(reach: State -> bool, s: State) returns (t: State)
    requires Closed(reach) && reach(s) && Quietly(s).Some?
    ensures reach(t) && t == Quietly(s).value
  {
    QuietlySteps(s);
    t := Quietly(s).value;
  }

  lemma GoTake(reach: State -> bool, s: State) returns (t: State)
    requires Closed(reach) && reach(s) && Taken(s).Some?
    ensures reach(t) && t == Taken(s).value
  {
    TakenSteps(s);
    t := Taken(s).value;
  }

  lemma GoWrite(reach: State -> bool, s: State) returns (t: State)
    requires Closed(reach) && reach(s) && Written(s).Some?
    ensures reach(t) && t == Written(s).value
  {
    WrittenSteps(s);
    t := Written(s).value;
  }

  lemma GoReading(reach: State -> bool, s: State) returns (t: State)
    requires Closed(reach) && reach(s) && s.pc == Selecting
    ensures reach(t) && t == s.(pc := Reading)
  {
    ReadableSteps(s);
    t := s.(pc := Reading);
  }

  lemma GoAnswer(reach: State -> bool, s: State) returns (t: State)
    requires Closed(reach) && reach(s) && Answered(s).Some?
    ensures reach(t) && t == Answered(s).value
  {
    AnsweredSteps(s);
    t := Answered(s).value;
  }

  lemma GoTell(reach: State -> bool, s: State) returns (t: State)
    requires Closed(reach) && reach(s) && Tells(s).Some?
    ensures reach(t) && t == Tells(s).value
  {
    TellsSteps(s);
    t := Tells(s).value;
  }

  lemma GoTimeOut(reach: State -> bool, s: State) returns (t: State)
    requires Closed(reach) && reach(s) && TimesOut(s).Some?
    ensures reach(t) && t == TimesOut(s).value
  {
    TimesOutSteps(s);
    t := TimesOut(s).value;
  }

  lemma GoStop(reach: State -> bool, s: State) returns (t: State)
    requires Closed(reach) && reach(s) && s.pc == StopFlag
    ensures reach(t) && t == s.(sched := s.sched.(running := false), pc := Finishing(ToClear))
  {
    StopFlagSteps(s);
    t := s.(sched := s.sched.(running := false), pc := Finishing(ToClear));
  }

  lemma GoClear(reach: State -> bool, s: State) returns (t: State)
    requires Closed(reach) && reach(s)
    requires s.pc == Clearing && s.sched.requests == [] && s.sched.inFlight.None?
    ensures reach(t)
    ensures t == s.(pc := Finishing(ToStopped), hand := [], verdict := NoReply, sched := Cleared(s.sched))
  {
    ClearingSteps(s);
    t := s.(pc := Finishing(ToStopped), hand := [], verdict := NoReply, sched := Cleared(s.sched));
  }

  lemma GoStart(reach: State -> bool, s: State) returns (t: State)
    requires Closed(reach) && reach(s) && s.pc == Finishing(ToStart) && s.hand == []
    ensures reach(t) && t == Started(s)
  {
    StartedSteps(s);
    t := Started(s);
  }

  lemma GoCall(reach: State -> bool, s: State, e: Event) returns (t: State)
    requires Closed(reach) && reach(s) && Called(s, e).Some?
    ensures reach(t) && t == Called(s, e).value
  {
    CalledSteps(s, e);
    t := Called(s, e).value;
  }

  // ---- Whole exchanges --------------------------------------------------------------------

  function Bare(c: Channel): Channel {
    Channel(c.interval, false, 0)
  }

  /** The state without what an idle pass of the I/O loop may change. */
  function Core(s: State): State {
    s.(pc := LoopTop, hand := [], verdict := NoReply,
       sched := s.sched.(imu := Bare(s.sched.imu), motor := Bare(s.sched.motor)),
       past := s.past.(log := [], chunks := [], sent := [], jobs := []))
  }

  /** Later in the log, on the same connection. */
  predicate SameConnection(log: seq<Entry>, more: seq<Entry>) {
    log <= more && forall i :: |log| <= i < |more| ==> !more[i].Connected?
  }

  predicate Near(s: State, t: State) {
    Core(s) == Core(t) && SameConnection(s.past.log, t.past.log) && t.hand == []
  }

  /** Connected, with no commands, watchdog or polls. */
  predicate Calm(s: State) {
    && s.sched.running && s.sched.commands == [] && s.sched.watchdog.None?
    && s.sched.imu.interval == 0 && s.sched.motor.interval == 0
  }

  lemma WalkTop(reach: State -> bool, s: State) returns (t: State)
    requires Closed(reach) && reach(s) && s.pc == LoopTop && Calm(s) && SweepsNothing(s)
    ensures reach(t) && Near(s, t) && t.pc == Selecting
  {
    t := Go(reach, s);
    t := Go(reach, t);
    assert SweepsNothing(t);
    t := Go(reach, t);
    t := Go(reach, t);
  }

  lemma WalkPop(reach: State -> bool, s: State) returns (t: State)
    requires Closed(reach) && reach(s) && s.pc == WatchdogCheck && Calm(s)
    ensures reach(t) && t == s.(pc := Sweep(true))
  {
    t := Go(reach, s);
    if t.pc.WatchdogLock? {
      t := Go(reach, t);
    }
    t := Go(reach, t);
  }

  lemma WalkIdle(reach: State -> bool, s: State) returns (t: State)
    requires Closed(reach) && reach(s) && s.pc == WatchdogCheck && Calm(s) && SweepsNothing(s)
    requires s.sched.inFlight.None?
    ensures reach(t) && t == s.(pc := QueryTake(s.now), hand := [], verdict := NoReply)
  {
    t := WalkPop(reach, s);
    assert SweepsNothing(t);
    t := Go(reach, t);
    t := Go(reach, t);
    t := Go(reach, t);
    t := Go(reach, t);
  }

  /** The request a holder of the management lock makes next. */
  function NextRequest(s: State, free: Payload): Scheduling.Request
    requires s.management.Busy? && NextBody(s.management, free) != []
  {
    var body := NextBody(s.management, free);
    Scheduling.Request(Query, |s.past.issued|, s.management.op, body[0], body, s.now + 1, true)
  }

  predicate MayAsk(s: State, free: Payload) {
    && s.pc == LoopTop && Calm(s) && s.sched.requests == [] && s.sched.inFlight.None?
    && s.management.Busy? && s.management.phase.Ready? && s.management.op != 0
    && ValidPayload(NextBody(s.management, free))
  }

  /** The request of the holder is in flight and has reached the device. */
  function Asking(s: State, free: Payload): State
    requires MayAsk(s, free)
  {
    var r := NextRequest(s, free);
    s.(management := s.management.(phase := Waiting(r.id)),
       sched := s.sched.(inFlight := Some(r)),
       device := s.device.(arrived := s.device.arrived[r.id := r.expected]),
       past := s.past.(issued := s.past.issued + [r]))
  }

  lemma WalkSubmit(reach: State -> bool, s: State, free: Payload) returns (t: State)
    requires Closed(reach) && reach(s) && MayAsk(s, free)
    ensures reach(t) && SweepsNothing(t)
    ensures var r := NextRequest(s, free);
            t == s.(management := s.management.(phase := Waiting(r.id)), sched := s.sched.(requests := [r]),
                    past := s.past.(issued := s.past.issued + [r]))
  {
    t := GoCall(reach, s, Event.Request(free, s.now + 1));
    OneLive([NextRequest(s, free)], s.now);
  }

  lemma WalkSend(reach: State -> bool, s: State, r: Scheduling.Request) returns (t: State)
    requires Closed(reach) && reach(s) && s.pc == Finishing(ToSend(r)) && s.hand == []
    requires s.sched.running && ValidPayload(r.body) && r.op != 0
    ensures reach(t) && t.pc == LoopTop && RequestOut(r) in t.past.log
    ensures Near(InFlight(s, r), t)
  {
    var u := WalkOut(reach, s, r);
    t := WalkWrite(reach, u, r);
    NearFrom(InFlight(s, r), InFlight(u, r), t);
  }

  lemma WalkOut(reach: State -> bool, s: State, r: Scheduling.Request) returns (t: State)
    requires Closed(reach) && reach(s) && s.pc == Finishing(ToSend(r)) && s.hand == []
    ensures reach(t) && t.pc == Writing(r.body, 0, Ask(r)) && t.hand == [] && t.sched == s.sched
    ensures Core(InFlight(s, r)) == Core(InFlight(t, r))
    ensures SameConnection(s.past.log, t.past.log) && RequestOut(r) in t.past.log
  {
    t := Go(reach, s);
    assert t.past.log == s.past.log + [RequestOut(r)];
    assert t.past.log[|s.past.log|] == RequestOut(r);
  }

  /** With `r` in flight and at the device. */
  function InFlight(s: State, r: Scheduling.Request): State {
    s.(sched := s.sched.(inFlight := Some(r)),
       device := s.device.(arrived := s.device.arrived[r.id := r.expected]))
  }

  lemma NearFrom(s: State, u: State, t: State)
    requires Core(s) == Core(u) && SameConnection(s.past.log, u.past.log) && Near(u, t)
    ensures Near(s, t)
  {
    var a, b, c := s.past.log, u.past.log, t.past.log;
    assert forall i :: 0 <= i < |b| ==> c[i] == b[i];
  }

  lemma WalkWrite(reach: State -> bool, s: State, r: Scheduling.Request) returns (t: State)
    requires Closed(reach) && reach(s) && s.pc == Writing(r.body, 0, Ask(r)) && s.hand == []
    requires s.sched.running && ValidPayload(r.body) && r.op != 0
    ensures reach(t) && t.pc == LoopTop && t.past.log == s.past.log
    ensures Near(InFlight(s, r), t)
  {
    t := GoWrite(reach, s);
    t := Go(reach, t);
  }

  /** A request of the lock's holder goes out. */
  lemma WalkAsk(reach: State -> bool, s: State, free: Payload) returns (t: State)
    requires Closed(reach) && reach(s) && MayAsk(s, free)
    ensures reach(t) && t.pc == LoopTop && Near(Asking(s, free), t)
    ensures RequestOut(NextRequest(s, free)) in t.past.log
  {
    var r := NextRequest(s, free);
    t := WalkSubmit(reach, s, free);
    t := WalkTop(reach, t);
    t := Go(reach, t);
    OneLive([r], s.now);
    t := WalkIdle(reach, t);
    t := GoTake(reach, t);
    t := WalkSend(reach, t, r);
  }

  predicate MayAnswer(s: State) {
    && s.pc == LoopTop && Calm(s) && s.sched.requests == []
    && s.sched.inFlight.Some? && s.sched.inFlight.value.purpose.Query? && s.sched.inFlight.value.deadline > s.now
    && |s.device.channel| == 1 && Matches(s.sched, s.device.channel[0].payload)
  }

  /** The completion of what is in flight by the only packet on its way. */
  function AnswerOf(s: State): Completion
    requires MayAnswer(s)
  {
    Completion(s.sched.inFlight.value, Reply(s.device.channel[0]), s.past.safe)
  }

  function Answering(s: State): State
    requires MayAnswer(s)
  {
    s.(sched := s.sched.(inFlight := None), device := s.device.(channel := []),
       past := s.past.(completions := s.past.completions + [AnswerOf(s)]))
  }

  /** A packet is read and completes the request in flight. */
  lemma WalkAnswer(reach: State -> bool, s: State) returns (t: State)
    requires Closed(reach) && reach(s) && MayAnswer(s)
    ensures reach(t) && t.pc == Finishing(ToRead) && Near(Answering(s), t)
    ensures Done(AnswerOf(s)) in t.past.log
  {
    t := WalkTop(reach, s);
    t := GoReading(reach, t);
    t := GoAnswer(reach, t);
    t := GoTell(reach, t);
    assert t.past.log[|t.past.log| - 1] == Done(AnswerOf(s));
  }

  /** After an answer the loop comes back to its top. */
  lemma WalkBack(reach: State -> bool, s: State) returns (t: State)
    requires Closed(reach) && reach(s) && s.pc == Finishing(ToRead) && s.hand == []
    requires Calm(s) && s.sched.requests == [] && s.sched.inFlight.None?
    ensures reach(t) && t.pc == LoopTop && Near(s, t)
  {
    t := Go(reach, s);
    t := Go(reach, t);
    t := WalkIdle(reach, t);
    t := GoTake(reach, t);
    t := Go(reach, t);
  }
}
